/** Indexing tasks as rows of the fenced queue: under the processor they obey all its laws. */
module IndexingLife {
  import opened Common
  import opened FencedQueue
  import opened QueueLaws
  import Catalog
  import IndexingProtocol

  type State = IndexingProtocol.State
  type Event = IndexingProtocol.Event
  type Activity = IndexingProtocol.Activity

  /** How the last transaction of a call ends its task, if it ends it at all. */
  function EndingOf(s: State, a: Activity): Option<Action> {
    if Guard(s.tasks, a.task, a.token).Some? then None
    else
      match a.phase
      case Skipping => Some(Complete)
      case Writing(text, _) =>
        var failure := IndexingProtocol.WriteFailure(s, s.tasks[a.task].payload.productId, text, a.maxAttempts, a.retryDelay);
        Some(if failure.Some? then failure.value else Complete)
      case Failing(permanent, message) =>
        var maxAttempts := if permanent then 1 else a.maxAttempts;
        if maxAttempts < 1 || a.retryDelay < 0 then None else Some(Fail(message, maxAttempts, a.retryDelay))
      case _ => None
  }

  /** What event `e` does to the row of task `t`. */
  function TaskChange(s: State, e: Event, t: nat): seq<Change>
    requires t in s.tasks
  {
    match e
    case Claim(ids, at, staleAfter) =>
      if IndexingProtocol.AllEligible(s.tasks, ids, at, staleAfter) && t in ids then
        [Claimed(s.tasks[t].status.Processing?, s.tasks[t].attempts + 1, at, staleAfter)]
      else []
    case Finish(a) =>
      if a in s.activities && s.activities[a].task == t && EndingOf(s, s.activities[a]).Some? then
        [Ended(s.activities[a].token, EndingOf(s, s.activities[a]).value, s.activities[a].now)]
      else []
    case _ => []
  }

  ghost function TaskHistory(s: State, es: seq<Event>, t: nat): seq<Change>
    requires t in s.tasks
    decreases |es|
  {
    if es == [] then []
    else
      var s' := IndexingProtocol.Step(s, es[0]);
      TaskChange(s, es[0], t) + (if t in s'.tasks then TaskHistory(s', es[1..], t) else [])
  }

  ghost predicate LivesOn(s: State, s': State, t: nat, cs: seq<Change>)
    requires t in s.tasks
  {
    t in s'.tasks && Follows(s.tasks[t], cs) && s'.tasks[t] == Play(s.tasks[t], cs)
  }

  lemma OneChange(r: Row<Catalog.NewTask>, c: Change)
    requires Enabled(r, c)
    ensures Follows(r, [c]) && Play(r, [c]) == Undergo(r, c)
  {
    assert Follows(Undergo(r, c), []) && Play(Undergo(r, c), []) == Undergo(r, c);
  }

  lemma ConcludeLives(s: State, a: Activity, t: nat)
    requires t in s.tasks && (a.phase.Skipping? || a.phase.Writing? || a.phase.Failing?)
    ensures var s' := IndexingProtocol.Conclude(s, a).0;
            && t in s'.tasks
            && s'.tasks[t] == (if a.task == t && EndingOf(s, a).Some? then ActRow(s.tasks[t], EndingOf(s, a).value, a.now) else s.tasks[t])
  {
  }

  lemma FinishLives(s: State, a: nat, t: nat)
    requires t in s.tasks
    ensures LivesOn(s, IndexingProtocol.Step(s, IndexingProtocol.Finish(a)), t, TaskChange(s, IndexingProtocol.Finish(a), t))
  {
    if a in s.activities {
      var act := s.activities[a];
      if act.phase.Skipping? || act.phase.Writing? || act.phase.Failing? { ConcludeLives(s, act, t); }
      if act.task == t && EndingOf(s, act).Some? { OneChange(s.tasks[t], Ended(act.token, EndingOf(s, act).value, act.now)); }
    }
  }

  lemma StepFollowsTaskLife(s: State, e: Event, t: nat)
    requires t in s.tasks
    ensures LivesOn(s, IndexingProtocol.Step(s, e), t, TaskChange(s, e, t))
  {
    match e
    case Write(after, scheduled, at) =>
      if IndexingProtocol.WriteAllowed(s.listings, s.tasks, after, scheduled) {
        assert t !in IndexingProtocol.ScheduledTasks(s.listings, after, scheduled, at);
      }
    case Claim(ids, at, staleAfter) =>
      if TaskChange(s, e, t) != [] { OneChange(s.tasks[t], TaskChange(s, e, t)[0]); }
    case Finish(a) => FinishLives(s, a, t);
    case _ =>
  }

  /** Under any writers and workers an indexing task lives a life of the fenced queue, to which all its laws apply. */
  lemma {:induction false} TasksFollowLives(s: State, es: seq<Event>, t: nat)
    requires t in s.tasks
    ensures LivesOn(s, IndexingProtocol.Run(s, es), t, TaskHistory(s, es, t))
    decreases |es|
  {
    if es != [] {
      var s' := IndexingProtocol.Step(s, es[0]);
      StepFollowsTaskLife(s, es[0], t);
      TasksFollowLives(s', es[1..], t);
      PlayAppend(s.tasks[t], TaskChange(s, es[0], t), TaskHistory(s', es[1..], t));
    }
  }

  /** No task is claimed before its time, nor taken from a call whose claim is not stale. */
  lemma TasksWaitTheirTime(s: State, es: seq<Event>, t: nat, i: nat)
    requires t in s.tasks && i < |TaskHistory(s, es, t)| && TaskHistory(s, es, t)[i].Claimed?
    ensures var cs := TaskHistory(s, es, t);
            && (i > 0 ==> Timely(cs[i - 1], cs[i]))
            && (i == 0 && s.tasks[t].status.Pending? ==> !cs[0].reclaim && s.tasks[t].availableAt <= cs[0].claimedAt)
  {
    TasksFollowLives(s, es, t);
    LifeIsTimely(s.tasks[t], TaskHistory(s, es, t), i);
  }

  lemma {:induction false} TasksAreNotReleased(s: State, es: seq<Event>, t: nat)
    requires t in s.tasks
    ensures Releases(TaskHistory(s, es, t)) == 0
    decreases |es|
  {
    if es != [] {
      var s' := IndexingProtocol.Step(s, es[0]);
      StepFollowsTaskLife(s, es[0], t);
      TasksAreNotReleased(s', es[1..], t);
      ReleasesAppend(TaskChange(s, es[0], t), TaskHistory(s', es[1..], t));
    }
  }

  lemma {:induction false} ReleasesAppend(a: seq<Change>, b: seq<Change>)
    ensures Releases(a + b) == Releases(a) + Releases(b)
  {
    if a == [] {
      assert a + b == b;
    } else {
      assert (a + b)[0] == a[0] && (a + b)[1..] == a[1..] + b;
      ReleasesAppend(a[1..], b);
    }
  }

  /** Every attempt of a new indexing task is a retry, a stale reclaim, or its last; and each claim ends it at most once. */
  lemma TaskLedger(s: State, es: seq<Event>, t: nat, token: int)
    requires t in s.tasks && s.tasks[t].status.Pending? && s.tasks[t].attempts == 0
    ensures t in IndexingProtocol.Run(s, es).tasks
    ensures var r, cs := IndexingProtocol.Run(s, es).tasks[t], TaskHistory(s, es, t);
            && r.attempts == Retries(cs) + Reclaims(cs) + (if r.status.Pending? then 0 else 1)
            && Wins(cs, token) <= 1
  {
    TasksFollowLives(s, es, t);
    TasksAreNotReleased(s, es, t);
    LifeLedger(s.tasks[t], TaskHistory(s, es, t));
    LifeWinsOnce(s.tasks[t], TaskHistory(s, es, t), token);
  }
}
