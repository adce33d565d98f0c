/**
 The protocol that keeps the embedding of every product in agreement with the catalog.

 Each database transaction is one atomic step; between the steps of one worker anything may happen:
 catalog writes, claims and stale reclaims by others, other workers on the same task, crashes.  A
 worker may start on any ticket ever issued, at any time and more than once.  Reading the product
 and writing its embedding are one step, as they are one transaction; the program does not lock the
 product row in between, which this model takes as atomic.
 */
module IndexingProtocol {
  import opened Common
  import opened FencedQueue
  import opened Documents
  import opened Catalog

  /** A product as the indexer reads it. */
  datatype Listing = Listing(merchantId: nat, semantics: Semantics, hasVariant: bool)

  /** The canonical document of build_product_index_text, as a function of the semantic fields. */
  function CanonicalText(f: Semantics): string {
    BuildProductIndexText(f.name, f.category, f.description, f.material)
  }

  datatype Client = Client(provider: string, model: string, dimensions: nat)

  type Vector = seq<real>

  datatype Embedding = Embedding(
    provider: string, model: string, dimensions: nat, text: string, digest: Digest, vector: Vector, embeddedAt: int)

  /** What the provider did with a text: raise, or answer with a vector and a dimension claim. */
  datatype Outcome = ProviderFailed | Answer(vector: Vector, dimensions: nat)

  datatype Phase =
    | Begun
    | Skipping
    | Requesting(text: string)
    | Writing(text: string, vector: Vector)
    | Failing(permanent: bool, message: string)

  /** One call of process_claimed_indexing_task. */
  datatype Activity = Activity(task: nat, token: nat, now: int, maxAttempts: int, retryDelay: int, phase: Phase)

  datatype ProcessResult =
    | Embedded | SkippedUnchanged | RetryScheduled | PermanentlyFailed | StaleClaimed
    | Raised(why: Refusal) | ArgumentError

  /**
   `render` makes the document of a product (CanonicalText in the program; nothing here depends on
   how).  `newest` and `answers` are history: the task scheduled by the last semantic change of each
   product, and every text with every vector the provider has returned for it.
   */
  datatype State = State(
    client: Client,
    render: Semantics -> string,
    listings: map<nat, Listing>,
    tasks: map<nat, Row<NewTask>>,
    embeddings: map<nat, Embedding>,
    activities: map<nat, Activity>,
    newest: map<nat, nat>,
    answers: set<(string, Vector)>)

  function Initial(client: Client, render: Semantics -> string): State {
    State(client, render, map[], map[], map[], map[], map[], {})
  }

  /** The current document of a product. */
  function Document(s: State, p: nat): string
    requires p in s.listings
  {
    s.render(s.listings[p].semantics)
  }

  // ----- the transactions of the processor

  /** _embedding_identical */
  predicate EmbeddingIdentical(e: Option<Embedding>, c: Client, digest: Digest) {
    && e.Some?
    && e.value.provider == c.provider && e.value.model == c.model && e.value.dimensions == c.dimensions
    && e.value.digest == digest
  }

  function EmbeddingOf(s: State, p: nat): Option<Embedding> {
    if p in s.embeddings then Some(s.embeddings[p]) else None
  }

  const PRODUCT_MISSING := "Product no longer exists."
  const VARIANT_MISSING := "Product variant is missing."
  const DOCUMENT_CHANGED := "Product document changed during processing."
  const DIMENSION_MISMATCH := "Embedding dimension mismatch."
  const PROVIDER_FAILURE := "Embedding provider failed."

  /** Phase B: the short read decides how the call goes on. */
  function ReadPhase(s: State, p: nat): Phase {
    if p !in s.listings then Failing(true, PRODUCT_MISSING)
    else if !s.listings[p].hasVariant then Failing(false, VARIANT_MISSING)
    else if EmbeddingIdentical(EmbeddingOf(s, p), s.client, Sha256(Document(s, p))) then Skipping
    else Requesting(Document(s, p))
  }

  /** Phase C: what the provider's outcome leads to. */
  function AnswerPhase(c: Client, text: string, o: Outcome): Phase {
    match o
    case ProviderFailed => Failing(false, PROVIDER_FAILURE)
    case Answer(vector, dimensions) =>
      if dimensions != c.dimensions || |vector| != c.dimensions then Failing(false, DIMENSION_MISMATCH)
      else Writing(text, vector)
  }

  function FailureResult(status: Status): ProcessResult {
    if status.Pending? then RetryScheduled else PermanentlyFailed
  }

  function RefusalResult(why: Refusal): ProcessResult {
    if why.StaleClaim? then StaleClaimed else Raised(why)
  }

  function NewEmbedding(c: Client, text: string, vector: Vector, now: int): Embedding {
    Embedding(c.provider, c.model, c.dimensions, text, Sha256(text), vector, now)
  }

  /** The failure that phase D applies to the task instead of writing, if any. */
  function WriteFailure(s: State, p: nat, text: string, maxAttempts: int, retryDelay: int): Option<Action> {
    if p !in s.listings then Some(Fail(PRODUCT_MISSING, 1, retryDelay))
    else if !s.listings[p].hasVariant then Some(Fail(VARIANT_MISSING, maxAttempts, retryDelay))
    else if Sha256(Document(s, p)) != Sha256(text) then Some(Fail(DOCUMENT_CHANGED, maxAttempts, retryDelay))
    else None
  }

  /** Phase D: recheck the token and the document, then write the embedding and complete the task. */
  function WriteEmbedding(s: State, a: Activity, text: string, vector: Vector): (State, ProcessResult) {
    match Guard(s.tasks, a.task, a.token)
    case Some(why) => (s, RefusalResult(why))
    case None =>
      var p := s.tasks[a.task].payload.productId;
      match WriteFailure(s, p, text, a.maxAttempts, a.retryDelay)
      case Some(failure) =>
        var row := ActRow(s.tasks[a.task], failure, a.now);
        (s.(tasks := s.tasks[a.task := row]), FailureResult(row.status))
      case None =>
        (s.(embeddings := s.embeddings[p := NewEmbedding(s.client, text, vector, a.now)],
            tasks := Act(s.tasks, a.task, a.token, Complete, a.now)),
         Embedded)
  }

  /** mark_indexing_task_completed after an identical embedding was found. */
  function SkipTask(s: State, a: Activity): (State, ProcessResult) {
    match Guard(s.tasks, a.task, a.token)
    case Some(why) => (s, RefusalResult(why))
    case None => (s.(tasks := Act(s.tasks, a.task, a.token, Complete, a.now)), SkippedUnchanged)
  }

  /** mark_indexing_task_failed, with a cap of 1 when the failure is permanent. */
  function FailTask(s: State, a: Activity, permanent: bool, message: string): (State, ProcessResult) {
    var maxAttempts := if permanent then 1 else a.maxAttempts;
    if maxAttempts < 1 || a.retryDelay < 0 then (s, ArgumentError)
    else
      match Guard(s.tasks, a.task, a.token)
      case Some(why) => (s, RefusalResult(why))
      case None =>
        var row := ActRow(s.tasks[a.task], Fail(message, maxAttempts, a.retryDelay), a.now);
        (s.(tasks := s.tasks[a.task := row]), FailureResult(row.status))
  }

  /** The last transaction of a call, by the phase it is in. */
  function Conclude(s: State, a: Activity): (State, ProcessResult)
    requires a.phase.Skipping? || a.phase.Writing? || a.phase.Failing?
  {
    match a.phase
    case Skipping => SkipTask(s, a)
    case Writing(text, vector) => WriteEmbedding(s, a, text, vector)
    case Failing(permanent, message) => FailTask(s, a, permanent, message)
  }

  // ----- the machine

  datatype Event =
    | Write(after: map<nat, Listing>, scheduled: map<nat, nat>, at: int)
    | Claim(ids: set<nat>, at: int, staleAfter: int)
    | Begin(activity: nat, task: nat, token: nat, now: int, maxAttempts: int, retryDelay: int)
    | Read(activity: nat)
    | Respond(activity: nat, outcome: Outcome)
    | Finish(activity: nat)
    | Crash(activity: nat)

  predicate Changed(before: map<nat, Listing>, after: map<nat, Listing>, p: nat) {
    p in after && (p !in before || before[p] != after[p])
  }

  /** The semantic fields in which a product differs. */
  function Differing(before: map<nat, Listing>, after: map<nat, Listing>, p: nat): set<Field>
    requires p in after
  {
    if p in before then ChangedFields(before[p].semantics, after[p].semantics) else SEMANTIC_FIELDS
  }

  /**
   What this protocol needs of a catalog transaction: it deletes no product and schedules one new
   task for each product that is new or changed in what the indexer reads, and no other.
   */
  ghost predicate WriteAllowed(before: map<nat, Listing>, tasks: map<nat, Row<NewTask>>, after: map<nat, Listing>, scheduled: map<nat, nat>) {
    && (forall p | p in before :: p in after)
    && (forall p :: p in scheduled <==> Changed(before, after, p))
    && (forall p | p in scheduled :: scheduled[p] !in tasks)
    && (forall p, q | p in scheduled && q in scheduled && scheduled[p] == scheduled[q] :: p == q)
  }

  function ScheduledTasks(before: map<nat, Listing>, after: map<nat, Listing>, scheduled: map<nat, nat>, at: int): map<nat, Row<NewTask>>
    requires forall p | p in scheduled :: p in after
    requires forall p, q | p in scheduled && q in scheduled && scheduled[p] == scheduled[q] :: p == q
  {
    map p | p in scheduled :: scheduled[p] := NewRow(NewTask(after[p].merchantId, p, Differing(before, after, p)), at)
  }

  predicate AllEligible(tasks: map<nat, Row<NewTask>>, ids: set<nat>, at: int, staleAfter: int) {
    forall id | id in ids :: id in tasks && Eligible(tasks[id], at, staleAfter)
  }

  function InPhase(s: State, a: nat, phase: Phase): State
    requires a in s.activities
  {
    s.(activities := s.activities[a := s.activities[a].(phase := phase)])
  }

  ghost function Step(s: State, e: Event): State {
    match e
    case Write(after, scheduled, at) =>
      if !WriteAllowed(s.listings, s.tasks, after, scheduled) then s
      else s.(listings := after,
              tasks := s.tasks + ScheduledTasks(s.listings, after, scheduled, at),
              newest := s.newest + scheduled)
    case Claim(ids, at, staleAfter) =>
      if AllEligible(s.tasks, ids, at, staleAfter) then s.(tasks := ClaimAll(s.tasks, ids, at)) else s
    case Begin(a, task, token, now, maxAttempts, retryDelay) =>
      if a !in s.activities && task in s.tasks && 1 <= token <= s.tasks[task].attempts then
        s.(activities := s.activities[a := Activity(task, token, now, maxAttempts, retryDelay, Begun)])
      else s
    case Read(a) =>
      if a in s.activities && s.activities[a].phase.Begun? && s.activities[a].task in s.tasks then
        InPhase(s, a, ReadPhase(s, s.tasks[s.activities[a].task].payload.productId))
      else s
    case Respond(a, outcome) =>
      if a in s.activities && s.activities[a].phase.Requesting? then
        var text := s.activities[a].phase.text;
        InPhase(s, a, AnswerPhase(s.client, text, outcome))
          .(answers := if outcome.Answer? then s.answers + {(text, outcome.vector)} else s.answers)
      else s
    case Finish(a) =>
      if a in s.activities && var phase := s.activities[a].phase; phase.Skipping? || phase.Writing? || phase.Failing? then
        Conclude(s, s.activities[a]).0.(activities := s.activities - {a})
      else s
    case Crash(a) => s.(activities := s.activities - {a})
  }

  ghost function Run(s: State, es: seq<Event>): State
    decreases |es|
  {
    if es == [] then s else Run(Step(s, es[0]), es[1..])
  }

  lemma {:induction false} RunAppend(s: State, a: seq<Event>, b: seq<Event>)
    ensures Run(s, a + b) == Run(Run(s, a), b)
    decreases |a|
  {
    if a == [] {
      assert a + b == b;
    } else {
      assert (a + b)[0] == a[0] && (a + b)[1..] == a[1..] + b;
      RunAppend(Step(s, a[0]), a[1..], b);
    }
  }

  lemma RunOne(s: State, e: Event)
    ensures Run(s, [e]) == Step(s, e)
  {
    assert Run(Step(s, e), []) == Step(s, e);
  }

  // ----- what every step keeps

  /** The embedding of `p` is the client's embedding of the current document. */
  predicate Fresh(s: State, p: nat) {
    && p in s.listings && s.listings[p].hasVariant
    && EmbeddingIdentical(EmbeddingOf(s, p), s.client, Sha256(Document(s, p)))
  }

  ghost predicate TaskAt(s: State, t: nat) { t in s.tasks ==> s.tasks[t].payload.productId in s.listings }

  /** The task of the last semantic change is there, and completes only when the row is fresh. */
  ghost predicate ProductAt(s: State, p: nat) {
    p in s.listings ==>
      && p in s.newest && s.newest[p] in s.tasks
      && s.tasks[s.newest[p]].payload.productId == p
      && (s.tasks[s.newest[p]].status.Completed? ==> Fresh(s, p))
  }

  ghost predicate ActivityAt(s: State, a: nat) {
    a in s.activities ==>
      var act := s.activities[a];
      && act.task in s.tasks && 1 <= act.token <= s.tasks[act.task].attempts
      && var p := s.tasks[act.task].payload.productId;
      && (act.phase.Skipping? && p in s.newest && s.newest[p] == act.task ==> Fresh(s, p))
      && (act.phase.Writing? ==> (act.phase.text, act.phase.vector) in s.answers && |act.phase.vector| == s.client.dimensions)
  }

  /** Every stored vector is a provider's answer to the stored text, under that text's digest. */
  ghost predicate EmbeddingAt(s: State, p: nat) {
    p in s.embeddings ==>
      var e := s.embeddings[p];
      && p in s.listings && e.digest == Sha256(e.text)
      && (e.text, e.vector) in s.answers && |e.vector| == e.dimensions == s.client.dimensions
  }

  ghost predicate Inv(s: State) {
    && (forall t :: TaskAt(s, t))
    && (forall p :: ProductAt(s, p))
    && (forall a :: ActivityAt(s, a))
    && (forall p :: EmbeddingAt(s, p))
  }
}
