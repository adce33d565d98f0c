/** Whole runs of the indexing protocol: one undisturbed worker, and one that is overtaken. */
module IndexingScenario {
  import FencedQueue
  import opened Catalog
  import opened IndexingProtocol
  import opened IndexingLaws

  // ----- one undisturbed worker

  /** The steps of a worker on a task, up to its last transaction. */
  function Preparation(task: nat, token: nat, activity: nat, at: int, staleAfter: int, vector: Vector): seq<Event> {
    [Claim({task}, at, staleAfter), Begin(activity, task, token, at, 1, 0), Read(activity), Respond(activity, Answer(vector, |vector|))]
  }

  function SoloRun(task: nat, token: nat, activity: nat, at: int, staleAfter: int, vector: Vector): seq<Event> {
    Preparation(task, token, activity, at, staleAfter, vector) + [Finish(activity)]
  }

  /** A task that a worker may claim, of a product that can be indexed. */
  ghost predicate Indexable(s: State, task: nat, at: int, staleAfter: int) {
    && task in s.tasks && FencedQueue.Eligible(s.tasks[task], at, staleAfter)
    && var p := s.tasks[task].payload.productId;
    && p in s.listings && s.listings[p].hasVariant
  }

  /** The claim is current, and the current document is stored, or in hand with its vector. */
  ghost predicate Ready(s: State, task: nat, activity: nat) {
    && task in s.tasks && s.tasks[task].status.Processing?
    && var p := s.tasks[task].payload.productId;
    && p in s.listings && s.listings[p].hasVariant
    && activity in s.activities
    && var a := s.activities[activity];
    && a.task == task && a.token == s.tasks[task].attempts
    && ((a.phase.Skipping? && Fresh(s, p)) || (a.phase.Writing? && a.phase.text == Document(s, p)))
  }

  /** The preparation claims the task and changes nothing else but its own activity. */
  ghost predicate Prepared(s: State, s': State, task: nat, activity: nat, at: int) {
    && Ready(s', task, activity)
    && s'.tasks == FencedQueue.ClaimAll(s.tasks, {task}, at)
    && s'.listings == s.listings && s'.client == s.client && s'.render == s.render && s'.embeddings == s.embeddings
    && s'.activities == s.activities[activity := s'.activities[activity]]
  }

  lemma RunFour(s: State, e1: Event, e2: Event, e3: Event, e4: Event)
    ensures Run(s, [e1, e2, e3, e4]) == Step(Step(Step(Step(s, e1), e2), e3), e4)
  {
    var s1 := Step(s, e1);
    var s2 := Step(s1, e2);
    RunOne(s, e1);
    RunOne(s1, e2);
    RunOne(s2, e3);
    RunOne(Step(s2, e3), e4);
    RunAppend(s, [e1], [e2, e3, e4]);
    RunAppend(s1, [e2], [e3, e4]);
    RunAppend(s2, [e3], [e4]);
    assert [e1] + [e2, e3, e4] == [e1, e2, e3, e4] && [e2] + [e3, e4] == [e2, e3, e4] && [e3] + [e4] == [e3, e4];
  }

  lemma ClaimAndBegin(s: State, task: nat, activity: nat, at: int, staleAfter: int)
    requires Indexable(s, task, at, staleAfter) && activity !in s.activities
    ensures var token := s.tasks[task].attempts + 1;
            Step(Step(s, Claim({task}, at, staleAfter)), Begin(activity, task, token, at, 1, 0)) ==
            s.(tasks := FencedQueue.ClaimAll(s.tasks, {task}, at),
               activities := s.activities[activity := Activity(task, token, at, 1, 0, Begun)])
  {
    assert AllEligible(s.tasks, {task}, at, staleAfter);
    assert Step(s, Claim({task}, at, staleAfter)) == s.(tasks := FencedQueue.ClaimAll(s.tasks, {task}, at));
  }

  /** A worker that has begun with a current claim. */
  ghost predicate HasBegun(s: State, task: nat, activity: nat) {
    && task in s.tasks && s.tasks[task].status.Processing?
    && var p := s.tasks[task].payload.productId;
    && p in s.listings && s.listings[p].hasVariant
    && activity in s.activities && s.activities[activity].phase.Begun?
    && s.activities[activity].task == task && s.activities[activity].token == s.tasks[task].attempts
  }

  lemma ReadAndRespond(s: State, task: nat, activity: nat, vector: Vector)
    requires HasBegun(s, task, activity) && |vector| == s.client.dimensions
    ensures var s' := Step(Step(s, Read(activity)), Respond(activity, Answer(vector, |vector|)));
            && Ready(s', task, activity)
            && s'.tasks == s.tasks && s'.listings == s.listings && s'.client == s.client && s'.render == s.render
            && s'.embeddings == s.embeddings && s'.activities == s.activities[activity := s'.activities[activity]]
  {
  }

  lemma PreparationPrepares(s: State, task: nat, activity: nat, at: int, staleAfter: int, vector: Vector)
    requires Indexable(s, task, at, staleAfter) && activity !in s.activities && |vector| == s.client.dimensions
    ensures Prepared(s, Run(s, Preparation(task, s.tasks[task].attempts + 1, activity, at, staleAfter, vector)), task, activity, at)
  {
    var e1, e2 := Claim({task}, at, staleAfter), Begin(activity, task, s.tasks[task].attempts + 1, at, 1, 0);
    ClaimAndBegin(s, task, activity, at, staleAfter);
    ReadAndRespond(Step(Step(s, e1), e2), task, activity, vector);
    RunFour(s, e1, e2, Read(activity), Respond(activity, Answer(vector, |vector|)));
  }

  lemma ReadyEndsFresh(s: State, task: nat, activity: nat)
    requires Ready(s, task, activity)
    ensures var s' := Step(s, Finish(activity));
            && Fresh(s', s.tasks[task].payload.productId)
            && task in s'.tasks && s'.tasks[task].status.Completed? && s'.tasks[task].attempts == s.tasks[task].attempts
            && s'.activities == s.activities - {activity}
  {
  }

  /** An undisturbed worker with a working provider completes a due or stale task and makes its product fresh. */
  lemma SoloRunFreshens(s: State, task: nat, activity: nat, at: int, staleAfter: int, vector: Vector)
    requires Indexable(s, task, at, staleAfter) && activity !in s.activities && |vector| == s.client.dimensions
    ensures var s' := Run(s, SoloRun(task, s.tasks[task].attempts + 1, activity, at, staleAfter, vector));
            && Fresh(s', s.tasks[task].payload.productId)
            && task in s'.tasks && s'.tasks[task].status.Completed? && s'.tasks[task].attempts == s.tasks[task].attempts + 1
            && s'.activities == s.activities
  {
    var es := Preparation(task, s.tasks[task].attempts + 1, activity, at, staleAfter, vector);
    PreparationPrepares(s, task, activity, at, staleAfter, vector);
    ReadyEndsFresh(Run(s, es), task, activity);
    RunAppend(s, es, [Finish(activity)]);
    RunOne(Run(s, es), Finish(activity));
  }

  // ----- an overtaken worker that meets a finished task

  /** The first worker prepares; after the stale time the task is claimed again and finished by another. */
  function OvertakenRun(task: nat, token: nat, late: nat, other: nat, at: int, staleAfter: int, vector: Vector): seq<Event> {
    Preparation(task, token, late, at, staleAfter, vector) + SoloRun(task, token + 1, other, at + staleAfter, staleAfter, vector)
  }

  /** The late call is still to conclude, its claim is not the newest, and concluding raises the transition error. */
  ghost predicate RaisesWhenConcluded(s: State, late: nat) {
    && late in s.activities
    && var a := s.activities[late];
    && (a.phase.Skipping? || a.phase.Writing? || a.phase.Failing?)
    && a.task in s.tasks && a.token < s.tasks[a.task].attempts && s.tasks[a.task].status.Completed?
    && Conclude(s, a) == (s, Raised(FencedQueue.InvalidTransition))
  }

  lemma OvertakenRunRaises(s: State, task: nat, late: nat, other: nat, at: int, staleAfter: int, vector: Vector)
    requires Indexable(s, task, at, staleAfter) && |vector| == s.client.dimensions
    requires late !in s.activities && other !in s.activities && late != other
    ensures RaisesWhenConcluded(Run(s, OvertakenRun(task, s.tasks[task].attempts + 1, late, other, at, staleAfter, vector)), late)
  {
    var token := s.tasks[task].attempts + 1;
    var first := Preparation(task, token, late, at, staleAfter, vector);
    var s4 := Run(s, first);
    PreparationPrepares(s, task, late, at, staleAfter, vector);
    assert s4.tasks[task] == FencedQueue.ClaimRow(s.tasks[task], at);
    SoloRunFreshens(s4, task, other, at + staleAfter, staleAfter, vector);
    RunAppend(s, first, SoloRun(task, token + 1, other, at + staleAfter, staleAfter, vector));
    var s' := Run(s, OvertakenRun(task, token, late, other, at, staleAfter, vector));
    OvertakenCall(s', s'.activities[late]);
  }

  function FirstWrite(semantics: Semantics): Event { Write(map[0 := Listing(0, semantics, true)], map[0 := 0], 0) }

  lemma FirstWriteSchedules(client: Client, render: Semantics -> string, semantics: Semantics, staleAfter: int)
    ensures var s := Step(Initial(client, render), FirstWrite(semantics));
            Indexable(s, 0, 0, staleAfter) && s.activities == map[] && s.client == client && s.tasks[0].attempts == 0
  {
    var s0 := Initial(client, render);
    var after := map[0 := Listing(0, semantics, true)];
    assert WriteAllowed(s0.listings, s0.tasks, after, map[0 := 0]);
    var added := ScheduledTasks(s0.listings, after, map[0 := 0], 0);
    assert 0 in added && added[0] == FencedQueue.NewRow(NewTask(0, 0, SEMANTIC_FIELDS), 0);
  }

  /**
   The stale-claim promise of the processor fails in a reachable state, for every client, catalog
   entry and stale time: write a product, claim its task, read, get the answer, let the claim go stale,
   have another worker finish the task, and conclude the first call.
   */
  lemma RaisedIsReachable(client: Client, render: Semantics -> string, semantics: Semantics, staleAfter: int, vector: Vector)
    requires |vector| == client.dimensions
    ensures var s := Run(Initial(client, render), [FirstWrite(semantics)] + OvertakenRun(0, 1, 0, 1, 0, staleAfter, vector));
            Reachable(s, client, render) && RaisesWhenConcluded(s, 0)
  {
    var s0, es := Initial(client, render), OvertakenRun(0, 1, 0, 1, 0, staleAfter, vector);
    FirstWriteSchedules(client, render, semantics, staleAfter);
    OvertakenRunRaises(Step(s0, FirstWrite(semantics)), 0, 0, 1, 0, staleAfter, vector);
    RunAppend(s0, [FirstWrite(semantics)], es);
    RunOne(s0, FirstWrite(semantics));
    RunReaches(client, render, [FirstWrite(semantics)] + es);
  }
}
