/** What the index promises, over all runs of catalog writers and indexing workers. */
module IndexingLaws {
  import opened Common
  import FencedQueue
  import opened Documents
  import opened Catalog
  import opened IndexingProtocol
  import opened IndexingInvariant

  /** The task scheduled by the last change of the product is waiting, being worked on, or permanently failed. */
  ghost predicate NewestIsOpen(s: State, p: nat) {
    && p in s.newest && s.newest[p] in s.tasks
    && s.tasks[s.newest[p]].payload.productId == p && !s.tasks[s.newest[p]].status.Completed?
  }

  /** Nothing older counts: the embedding is fresh, or the newest task of the product is open. */
  ghost predicate Covered(s: State, p: nat) {
    p in s.listings ==> Fresh(s, p) || NewestIsOpen(s, p)
  }

  /** `s` is reached by some run of catalog writers, workers and crashes. */
  ghost predicate Reachable(s: State, client: Client, render: Semantics -> string) {
    exists es :: Run(Initial(client, render), es) == s
  }

  lemma RunReaches(client: Client, render: Semantics -> string, es: seq<Event>)
    ensures Reachable(Run(Initial(client, render), es), client, render)
  {
  }

  lemma ReachableKeepsInv(s: State, client: Client, render: Semantics -> string)
    requires Reachable(s, client, render)
    ensures Inv(s) && s.client == client
  {
    var es :| Run(Initial(client, render), es) == s;
    RunKeepsInv(Initial(client, render), es);
    RunKeepsClient(Initial(client, render), es);
  }

  /** Index coverage: in every reachable state each product is covered, so no change of the catalog is ever lost. */
  lemma IndexCoverage(s: State, client: Client, render: Semantics -> string)
    requires Reachable(s, client, render)
    ensures forall p :: Covered(s, p)
  {
    ReachableKeepsInv(s, client, render);
    forall p ensures Covered(s, p) { assert ProductAt(s, p); }
  }

  /** A product is fresh as soon as its newest task has completed, whatever became of the others. */
  lemma DrainedProductIsFresh(s: State, client: Client, render: Semantics -> string, p: nat)
    requires Reachable(s, client, render) && p in s.listings && !NewestIsOpen(s, p)
    ensures Fresh(s, p)
  {
    IndexCoverage(s, client, render);
    assert Covered(s, p);
  }

  /** When every task has completed, the index agrees with the catalog on every product. */
  lemma DrainedIndexIsFresh(s: State, client: Client, render: Semantics -> string)
    requires Reachable(s, client, render) && forall t | t in s.tasks :: s.tasks[t].status.Completed?
    ensures forall p | p in s.listings :: Fresh(s, p)
  {
    forall p | p in s.listings ensures Fresh(s, p) { DrainedProductIsFresh(s, client, render, p); }
  }

  /** The newest task of a product is replaced, by one that was not there before, exactly when a write changes the product. */
  lemma NewestFollowsChanges(s: State, e: Event, p: nat)
    requires p in Step(s, e).listings
    ensures var s' := Step(s, e);
            if p in s.listings && s'.listings[p] == s.listings[p] then
              (p in s'.newest <==> p in s.newest) && (p in s.newest ==> s'.newest[p] == s.newest[p])
            else p in s'.newest && s'.newest[p] in s'.tasks && s'.newest[p] !in s.tasks
  {
    match e
    case Write(after, scheduled, at) =>
      if WriteAllowed(s.listings, s.tasks, after, scheduled) {
        WriteReachesProduct(s, after, scheduled, at, p);
        assert p in scheduled <==> Changed(s.listings, after, p);
      }
    case Finish(a) => FinishKeepsCatalog(s, a);
    case _ =>
  }

  /** A field is listed exactly when the product is new or the field differs. */
  ghost predicate ListsChanges(changed: set<Field>, before: map<nat, Listing>, after: map<nat, Listing>, p: nat)
    requires p in after
  {
    && (Name in changed <==> p !in before || before[p].semantics.name != after[p].semantics.name)
    && (Description in changed <==> p !in before || before[p].semantics.description != after[p].semantics.description)
    && (Category in changed <==> p !in before || before[p].semantics.category != after[p].semantics.category)
    && (Material in changed <==> p !in before || before[p].semantics.material != after[p].semantics.material)
  }

  lemma ScheduledTaskIs(before: map<nat, Listing>, after: map<nat, Listing>, scheduled: map<nat, nat>, at: int, p: nat)
    requires (forall q | q in scheduled :: q in after) && p in scheduled
    requires forall q, r | q in scheduled && r in scheduled && scheduled[q] == scheduled[r] :: q == r
    ensures var added, id := ScheduledTasks(before, after, scheduled, at), scheduled[p];
            id in added && IsTaskOf(added[id], before, after, p, at)
  {
    var added := ScheduledTasks(before, after, scheduled, at);
    assert added[scheduled[p]] == FencedQueue.NewRow(NewTask(after[p].merchantId, p, Differing(before, after, p)), at);
  }

  /**
   A catalog write adds exactly the tasks of the products it changes: PENDING, due at once, with no
   attempts, under the product's merchant and with its changed fields; no other task is touched.
   */
  lemma WriteSchedulesTasks(s: State, after: map<nat, Listing>, scheduled: map<nat, nat>, at: int)
    requires WriteAllowed(s.listings, s.tasks, after, scheduled)
    ensures var s' := Step(s, Write(after, scheduled, at));
            && s'.listings == after && s'.embeddings == s.embeddings && s'.activities == s.activities
            && s'.tasks.Keys == s.tasks.Keys + scheduled.Values
            && (forall t | t in s.tasks :: s'.tasks[t] == s.tasks[t])
            && (forall p | p in scheduled :: IsTaskOf(s'.tasks[scheduled[p]], s.listings, after, p, at))
  {
    AddedKeys(s.listings, after, scheduled, at);
    forall p | p in scheduled
      ensures IsTaskOf(ScheduledTasks(s.listings, after, scheduled, at)[scheduled[p]], s.listings, after, p, at)
    {
      ScheduledTaskIs(s.listings, after, scheduled, at, p);
    }
    JoinTasks(s.tasks, ScheduledTasks(s.listings, after, scheduled, at));
  }

  lemma AddedKeys(before: map<nat, Listing>, after: map<nat, Listing>, scheduled: map<nat, nat>, at: int)
    requires forall q | q in scheduled :: q in after
    requires forall q, r | q in scheduled && r in scheduled && scheduled[q] == scheduled[r] :: q == r
    ensures ScheduledTasks(before, after, scheduled, at).Keys == scheduled.Values
  {
  }

  lemma JoinTasks<V>(earlier: map<nat, V>, added: map<nat, V>)
    requires added.Keys !! earlier.Keys
    ensures (earlier + added).Keys == earlier.Keys + added.Keys
    ensures forall t | t in earlier :: (earlier + added)[t] == earlier[t]
    ensures forall t | t in added :: (earlier + added)[t] == added[t]
  {
  }

  ghost predicate IsTaskOf(row: FencedQueue.Row<NewTask>, before: map<nat, Listing>, after: map<nat, Listing>, p: nat, at: int) {
    && row.status.Pending? && row.attempts == 0 && row.availableAt == row.createdAt == at
    && p in after && row.payload.productId == p && row.payload.merchantId == after[p].merchantId
    && ListsChanges(row.payload.changed, before, after, p)
  }

  lemma FinishKeepsCatalog(s: State, a: nat)
    ensures Step(s, Finish(a)).listings == s.listings && Step(s, Finish(a)).newest == s.newest
    ensures Step(s, Finish(a)).client == s.client && Step(s, Finish(a)).render == s.render
  {
  }

  /**
   A fresh product stays fresh through every step, unless a catalog write changes its document or
   takes its variant away.
   */
  lemma FreshnessIsLostExactlyWhen(s: State, e: Event, p: nat)
    requires Fresh(s, p)
    ensures p in Step(s, e).listings
    ensures Fresh(Step(s, e), p) <==> Step(s, e).listings[p].hasVariant && Document(Step(s, e), p) == Document(s, p)
    ensures !Fresh(Step(s, e), p) ==> e.Write?
  {
    match e
    case Finish(a) =>
      FinishKeepsCatalog(s, a);
      FinishKeepsFresh(s, a, p);
    case _ =>
  }

  lemma FinishKeepsFresh(s: State, a: nat, p: nat)
    requires Fresh(s, p)
    ensures Fresh(Step(s, Finish(a)), p)
  {
    if a in s.activities {
      var act := s.activities[a];
      match act.phase
      case Writing(text, vector) => WriteKeepsFresh(s, act, text, vector, p);
      case _ =>
    }
  }

  lemma WriteKeepsFresh(s: State, a: Activity, text: string, vector: Vector, p: nat)
    requires Fresh(s, p)
    ensures Fresh(WriteEmbedding(s, a, text, vector).0, p)
  {
  }

  /**
   No stale vector.  Whatever happened since the snapshot, a phase D that reports EMBEDDED was made by
   the newest claim of a task in progress, leaves exactly that product with the digest of its document
   in that same state, and completes the task; one that a refusal stops changes nothing at all.
   */
  lemma NoStaleVector(s: State, a: Activity, text: string, vector: Vector)
    ensures var (s', r) := WriteEmbedding(s, a, text, vector);
            && s'.listings == s.listings
            && (r.Embedded? ==>
                  && a.task in s.tasks && s.tasks[a.task].status.Processing? && s.tasks[a.task].attempts == a.token
                  && var p := s.tasks[a.task].payload.productId;
                  && Fresh(s', p)
                  && s'.embeddings == s.embeddings[p := s'.embeddings[p]]
                  && s'.embeddings[p].text == Document(s', p) && s'.embeddings[p].vector == vector && s'.embeddings[p].embeddedAt == a.now
                  && s'.tasks == s.tasks[a.task := s'.tasks[a.task]] && s'.tasks[a.task].status.Completed?)
            && (!r.Embedded? ==> s'.embeddings == s.embeddings)
            && (forall t | t in s.tasks && t != a.task :: t in s'.tasks && s'.tasks[t] == s.tasks[t])
            && (r.StaleClaimed? || r.Raised? <==> FencedQueue.Guard(s.tasks, a.task, a.token) != None)
            && (r.StaleClaimed? || r.Raised? ==> s' == s)
  {
  }

  /** A stored vector was returned by the provider for the stored text, which has the stored digest. */
  ghost predicate Genuine(s: State, p: nat, client: Client) {
    p in s.embeddings ==>
      var e := s.embeddings[p];
      && (e.text, e.vector) in s.answers && e.digest == Sha256(e.text)
      && |e.vector| == e.dimensions == client.dimensions
  }

  /** In every reachable state each stored vector is genuine and has the client's dimension. */
  lemma VectorsBelongToTheirTexts(s: State, client: Client, render: Semantics -> string)
    requires Reachable(s, client, render)
    ensures forall p :: Genuine(s, p, client)
  {
    ReachableKeepsInv(s, client, render);
    forall p ensures Genuine(s, p, client) { assert EmbeddingAt(s, p); }
  }

  lemma {:induction false} RunKeepsClient(s: State, es: seq<Event>)
    ensures Run(s, es).client == s.client
    decreases |es|
  {
    if es != [] { RunKeepsClient(Step(s, es[0]), es[1..]); }
  }

  /**
   A call that a newer claim has overtaken surfaces the stale claim while the newer one is working,
   and the transition error exactly when the task is no longer PROCESSING; either way it has no effect.
   */
  lemma OvertakenCall(s: State, a: Activity)
    requires a.phase.Skipping? || a.phase.Writing? || a.phase.Failing?
    requires a.task in s.tasks && a.token < s.tasks[a.task].attempts
    ensures var (s', r) := Conclude(s, a);
            && s' == s
            && (!r.ArgumentError? ==> (r.Raised? <==> !s.tasks[a.task].status.Processing?))
            && (r.ArgumentError? || r == StaleClaimed || r == Raised(FencedQueue.InvalidTransition))
            && (r.ArgumentError? <==> a.phase.Failing? && ((!a.phase.permanent && a.maxAttempts < 1) || a.retryDelay < 0))
  {
  }
}
