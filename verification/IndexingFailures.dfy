/** How the processor's calls end: skipped, retried, or failed for good. */
module IndexingFailures {
  import opened Common
  import opened Documents
  import opened Catalog
  import opened IndexingProtocol
  import opened IndexingInvariant

  // ----- one call among others

  predicate IsOf(e: Event, id: nat) {
    match e
    case Begin(a, _, _, _, _, _) => a == id
    case Read(a) => a == id
    case Respond(a, _) => a == id
    case Finish(a) => a == id
    case Crash(a) => a == id
    case _ => false
  }

  lemma OtherLeavesMyActivity(s: State, e: Event, id: nat)
    requires id in s.activities && !IsOf(e, id)
    ensures id in Step(s, e).activities && Step(s, e).activities[id] == s.activities[id]
  {
    if e.Finish? && e.activity in s.activities { ConcludeKeepsActivities(s, s.activities[e.activity]); }
  }

  lemma ConcludeKeepsActivities(s: State, a: Activity)
    ensures a.phase.Skipping? || a.phase.Writing? || a.phase.Failing? ==> Conclude(s, a).0.activities == s.activities
  {
  }

  lemma {:induction false} OthersLeaveMyActivity(s: State, es: seq<Event>, id: nat)
    requires id in s.activities && forall e | e in es :: !IsOf(e, id)
    ensures id in Run(s, es).activities && Run(s, es).activities[id] == s.activities[id]
    decreases |es|
  {
    if es != [] {
      assert es[0] in es && forall e | e in es[1..] :: e in es;
      OtherLeavesMyActivity(s, es[0], id);
      OthersLeaveMyActivity(Step(s, es[0]), es[1..], id);
    }
  }

  /** The call holds the newest claim of a task in progress, and its cap and delay are acceptable. */
  ghost predicate IsCurrent(s: State, a: Activity) {
    && a.task in s.tasks && s.tasks[a.task].status.Processing? && s.tasks[a.task].attempts == a.token
    && a.maxAttempts >= 1 && a.retryDelay >= 0
  }

  /** The task alone has changed, and shows a failure judged against the call's own cap. */
  ghost predicate FailedOrRetried(s: State, a: Activity, s': State, r: ProcessResult, message: string)
    requires a.task in s.tasks
  {
    && a.task in s'.tasks && s' == s.(tasks := s.tasks[a.task := s'.tasks[a.task]])
    && var row := s'.tasks[a.task];
    && row.lastError == Some(message) && row.attempts == s.tasks[a.task].attempts
    && if s.tasks[a.task].attempts < a.maxAttempts then
         r == RetryScheduled && row.status.Pending? && row.availableAt == a.now + a.retryDelay
         && row.startedAt == None && row.completedAt == None
       else r == PermanentlyFailed && row.status.Failed? && row.completedAt == Some(a.now)
  }

  /** The provider raised, or its vector does not have the client's dimension. */
  ghost predicate Unusable(o: Outcome, c: Client) {
    o.ProviderFailed? || o.dimensions != c.dimensions || |o.vector| != c.dimensions
  }

  /**
   A provider failure costs one attempt, not the task.  Whatever others do between the answer and the
   call's last transaction: if the claim is still current then, the task is rescheduled while its
   attempts are below the call's cap, and fails for good from the cap on.
   */
  lemma UnusableAnswerIsRetried(s: State, id: nat, o: Outcome, es: seq<Event>)
    requires id in s.activities && s.activities[id].phase.Requesting? && Unusable(o, s.client)
    requires forall e | e in es :: !IsOf(e, id)
    requires IsCurrent(Run(Step(s, Respond(id, o)), es), s.activities[id])
    ensures var now := Run(Step(s, Respond(id, o)), es);
            && id in now.activities && now.activities[id].phase.Failing?
            && var a := now.activities[id];
            var (after, r) := Conclude(now, a);
            && a == s.activities[id].(phase := a.phase)
            && FailedOrRetried(now, a, after, r, if o.ProviderFailed? then PROVIDER_FAILURE else DIMENSION_MISMATCH)
            && Step(now, Finish(id)).tasks == after.tasks
  {
    OthersLeaveMyActivity(Step(s, Respond(id, o)), es, id);
  }

  // ----- every conclusion of a current call

  /** The product of a task is there, has its variant, and its document is the text in hand. */
  ghost predicate Unmoved(s: State, p: nat, text: string) {
    p in s.listings && s.listings[p].hasVariant && Document(s, p) == text
  }

  /** Before phase D writes, a changed, incomplete or missing product stops it, for the first reason that applies. */
  lemma MovedProductStopsTheWrite(s: State, a: Activity)
    requires a.phase.Writing? && IsCurrent(s, a)
    ensures var (after, r) := Conclude(s, a);
            var p := s.tasks[a.task].payload.productId;
            && (r.Embedded? <==> Unmoved(s, p, a.phase.text))
            && (p in s.listings && !s.listings[p].hasVariant ==> FailedOrRetried(s, a, after, r, VARIANT_MISSING))
            && (p in s.listings && s.listings[p].hasVariant && Document(s, p) != a.phase.text ==>
                  FailedOrRetried(s, a, after, r, DOCUMENT_CHANGED))
            && (p !in s.listings && a.token >= 1 ==>
                  r == PermanentlyFailed && a.task in after.tasks && after.tasks[a.task].lastError == Some(PRODUCT_MISSING))
  {
  }

  /**
   The short read.  An embedding of the client's provider, model and dimensions with the digest of the
   current document makes the call skip: no answer of the provider is taken, the task completes and no
   embedding changes.  Otherwise the provider is asked for exactly the current document.
   */
  lemma ReadingSkipsExactlyWhenEmbedded(s: State, id: nat, o: Outcome)
    requires id in s.activities && s.activities[id].phase.Begun? && IsCurrent(s, s.activities[id])
    requires var p := s.tasks[s.activities[id].task].payload.productId; p in s.listings && s.listings[p].hasVariant
    ensures var read := Step(s, Read(id));
            var p := s.tasks[s.activities[id].task].payload.productId;
            && id in read.activities
            && var a := read.activities[id];
            if p in s.embeddings && s.embeddings[p].provider == s.client.provider && s.embeddings[p].model == s.client.model
               && s.embeddings[p].dimensions == s.client.dimensions && s.embeddings[p].digest == Sha256(Document(s, p)) then
              && a.phase.Skipping? && Step(read, Respond(id, o)) == read
              && var (after, r) := Conclude(read, a);
              && r == SkippedUnchanged && after == read.(tasks := after.tasks) && a.task in after.tasks
              && after.tasks == read.tasks[a.task := after.tasks[a.task]]
              && after.tasks[a.task].status.Completed? && after.tasks[a.task].completedAt == Some(a.now)
            else a.phase == Requesting(Document(s, p))
  {
  }

  /** A product without its variant is reported and retried like a provider failure. */
  lemma MissingVariantIsRetried(s: State, id: nat)
    requires id in s.activities && s.activities[id].phase.Begun? && IsCurrent(s, s.activities[id])
    requires var p := s.tasks[s.activities[id].task].payload.productId; p in s.listings && !s.listings[p].hasVariant
    ensures var read := Step(s, Read(id));
            && id in read.activities && read.activities[id].phase.Failing?
            && var (after, r) := Conclude(read, read.activities[id]);
            FailedOrRetried(read, read.activities[id], after, r, VARIANT_MISSING)
  {
  }

  // ----- only the cap makes a task fail

  ghost predicate NoPermanentFailure(s: State) {
    forall a | a in s.activities :: !(s.activities[a].phase.Failing? && s.activities[a].phase.permanent)
  }

  lemma StepKeepsNoPermanentFailure(s: State, e: Event)
    requires Inv(s) && NoPermanentFailure(s)
    ensures NoPermanentFailure(Step(s, e))
  {
    match e
    case Read(a) =>
      if a in s.activities {
        assert ActivityAt(s, a) && TaskAt(s, s.activities[a].task);
      }
    case Finish(a) => if a in s.activities { ConcludeKeepsActivities(s, s.activities[a]); }
    case _ =>
  }

  /** The call fails its task: the claim is current and the attempts have reached the call's own cap. */
  ghost predicate FailsAtCap(s: State, e: Event, t: nat) {
    && e.Finish? && e.activity in s.activities && t in s.tasks
    && var a := s.activities[e.activity];
    && a.task == t && a.token == s.tasks[t].attempts && a.maxAttempts <= s.tasks[t].attempts
  }

  lemma StepFailsAtCap(s: State, e: Event, t: nat)
    requires Inv(s) && NoPermanentFailure(s) && t in Step(s, e).tasks && Step(s, e).tasks[t].status.Failed?
    requires t in s.tasks ==> !s.tasks[t].status.Failed?
    ensures FailsAtCap(s, e, t)
  {
    match e
    case Finish(a) =>
      if a in s.activities {
        assert ActivityAt(s, a) && TaskAt(s, s.activities[a].task);
      }
    case _ =>
  }

  ghost predicate FailsAtCapAt(s: State, es: seq<Event>, i: nat, t: nat) {
    && i < |es| && FailsAtCap(Run(s, es[..i]), es[i], t)
    && t in Run(s, es).tasks && Run(s, es[..i]).tasks[t].attempts == Run(s, es).tasks[t].attempts
  }

  lemma {:induction false} RunHasNoPermanentFailure(s: State, es: seq<Event>)
    requires Inv(s) && NoPermanentFailure(s)
    ensures NoPermanentFailure(Run(s, es))
    decreases |es|
  {
    if es != [] {
      StepKeepsNoPermanentFailure(s, es[0]);
      StepKeepsInv(s, es[0]);
      RunHasNoPermanentFailure(Step(s, es[0]), es[1..]);
    }
  }

  lemma {:induction false} FailedRunWasCapped(s: State, es: seq<Event>, t: nat)
    requires Inv(s) && NoPermanentFailure(s) && t in Run(s, es).tasks && Run(s, es).tasks[t].status.Failed?
    requires t in s.tasks ==> !s.tasks[t].status.Failed?
    ensures exists i: nat :: FailsAtCapAt(s, es, i, t)
    decreases |es|
  {
    if es != [] {
      var n := |es| - 1;
      var before := Run(s, es[..n]);
      assert es == es[..n] + [es[n]];
      RunAppend(s, es[..n], [es[n]]);
      RunOne(before, es[n]);
      RunKeepsInv(s, es[..n]);
      RunHasNoPermanentFailure(s, es[..n]);
      if t in before.tasks && before.tasks[t].status.Failed? {
        FailedRunWasCapped(s, es[..n], t);
        var i: nat :| FailsAtCapAt(s, es[..n], i, t);
        FailedTaskStays(before, es[n], t);
        assert es[..n][..i] == es[..i];
        assert FailsAtCapAt(s, es, i, t);
      } else {
        StepFailsAtCap(before, es[n], t);
        FinishKeepsAttempts(before, es[n], t);
        assert FailsAtCapAt(s, es, n, t);
      }
    }
  }

  lemma FailedTaskStays(s: State, e: Event, t: nat)
    requires t in s.tasks && s.tasks[t].status.Failed?
    ensures t in Step(s, e).tasks && Step(s, e).tasks[t] == s.tasks[t]
  {
    if e.Finish? && e.activity in s.activities { ConcludeKeepsAttempts(s, s.activities[e.activity], t); }
  }

  lemma ConcludeKeepsAttempts(s: State, a: Activity, t: nat)
    requires t in s.tasks
    ensures a.phase.Skipping? || a.phase.Writing? || a.phase.Failing? ==>
              var after := Conclude(s, a).0;
              && t in after.tasks && after.tasks[t].attempts == s.tasks[t].attempts
              && (!s.tasks[t].status.Processing? ==> after.tasks[t] == s.tasks[t])
  {
  }

  lemma FinishKeepsAttempts(s: State, e: Event, t: nat)
    requires e.Finish? && t in s.tasks
    ensures t in Step(s, e).tasks && Step(s, e).tasks[t].attempts == s.tasks[t].attempts
  {
    if e.activity in s.activities { ConcludeKeepsAttempts(s, s.activities[e.activity], t); }
  }

  /**
   In every run from the empty system a task is FAILED only because some call ended it when its
   attempts had reached the cap of that very call: nothing else makes a task fail, since no write
   removes a product.
   */
  lemma TasksFailOnlyAtTheCap(client: Client, render: Semantics -> string, es: seq<Event>, t: nat)
    requires t in Run(Initial(client, render), es).tasks && Run(Initial(client, render), es).tasks[t].status.Failed?
    ensures exists i: nat :: FailsAtCapAt(Initial(client, render), es, i, t)
  {
    FailedRunWasCapped(Initial(client, render), es, t);
  }
}
