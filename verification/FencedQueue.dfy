/**
 The row lifecycle shared by the indexing-task queue and the message-job queue: rows are claimed
 with a fencing token (`attempts`), and only the holder of the newest token may finish, retry,
 give up or release them.

 The queue is a state machine over (rows, row locks).  Claiming takes two steps, as in the database:
 a worker selects and locks rows (skipping rows locked by others), and later commits or rolls back.
 Clock readings are parameters of the steps; nothing relates the clocks of different steps.
 */
module FencedQueue {
  import opened Common

  datatype Status = Pending | Processing | Completed | Failed

  datatype Row<+P> = Row(
    status: Status,
    attempts: nat,
    availableAt: int,
    createdAt: int,
    startedAt: Option<int>,
    completedAt: Option<int>,
    lastError: Option<string>,
    payload: P)

  // ----- transitions of one row

  function NewRow<P>(payload: P, now: int): Row<P> {
    Row(Pending, 0, now, now, None, None, None, payload)
  }

  predicate Claimable<P>(r: Row<P>) { r.status.Pending? || r.status.Processing? }

  predicate Eligible<P>(r: Row<P>, now: int, staleAfter: int) {
    || (r.status.Pending? && r.availableAt <= now)
    || (r.status.Processing? && r.startedAt.Some? && r.startedAt.value <= now - staleAfter)
  }

  function ClaimRow<P>(r: Row<P>, now: int): Row<P> {
    r.(status := Processing, attempts := r.attempts + 1, startedAt := Some(now),
       completedAt := None, lastError := None)
  }

  function DecideFailureOutcome(attempts: nat, maxAttempts: int): Status {
    if attempts < maxAttempts then Pending else Failed
  }

  datatype Action =
    | Complete
    | Fail(message: string, maxAttempts: int, retryDelay: int)
    | Release

  function ActRow<P>(r: Row<P>, action: Action, now: int): Row<P> {
    match action
    case Complete => r.(status := Completed, completedAt := Some(now), lastError := None)
    case Fail(message, maxAttempts, retryDelay) =>
      if DecideFailureOutcome(r.attempts, maxAttempts).Pending? then
        r.(status := Pending, availableAt := now + retryDelay, startedAt := None,
           completedAt := None, lastError := Some(message))
      else
        r.(status := Failed, completedAt := Some(now), lastError := Some(message))
    case Release =>
      r.(status := Pending, availableAt := now, startedAt := None, completedAt := None)
  }

  /** Why a transition is refused: the three exceptions of the lifecycle. */
  datatype Refusal = NotFound | InvalidTransition | StaleClaim

  function Guard<P>(rows: map<nat, Row<P>>, id: nat, token: int): Option<Refusal> {
    if id !in rows then Some(NotFound)
    else if !rows[id].status.Processing? then Some(InvalidTransition)
    else if rows[id].attempts != token then Some(StaleClaim)
    else None
  }

  function Act<P>(rows: map<nat, Row<P>>, id: nat, token: int, action: Action, now: int): map<nat, Row<P>> {
    if Guard(rows, id, token).None? then rows[id := ActRow(rows[id], action, now)] else rows
  }

  // ----- the claiming query

  /** In order of availability, then creation, then id. */
  predicate Before<P>(rows: map<nat, Row<P>>, a: nat, b: nat)
    requires a in rows && b in rows
  {
    || rows[a].availableAt < rows[b].availableAt
    || (rows[a].availableAt == rows[b].availableAt &&
        (rows[a].createdAt < rows[b].createdAt || (rows[a].createdAt == rows[b].createdAt && a <= b)))
  }

  lemma {:induction false} FirstExists<P>(rows: map<nat, Row<P>>, s: set<nat>)
    requires s != {} && s <= rows.Keys
    ensures exists x :: x in s && forall y | y in s :: Before(rows, x, y)
  {
    var z :| z in s;
    if s != {z} {
      FirstExists(rows, s - {z});
      var x :| x in s - {z} && forall y | y in s - {z} :: Before(rows, x, y);
      var w := if Before(rows, x, z) then x else z;
      assert forall y | y in s :: y == z || y in s - {z};
      assert w in s && forall y | y in s :: Before(rows, w, y);
    }
  }

  function First<P>(rows: map<nat, Row<P>>, s: set<nat>): (r: nat)
    requires s != {} && s <= rows.Keys
    ensures r in s && forall y | y in s :: Before(rows, r, y)
  {
    FirstExists(rows, s);
    var x :| x in s && forall y | y in s :: Before(rows, x, y);
    x
  }

  function Select<P>(rows: map<nat, Row<P>>, s: set<nat>, limit: nat): seq<nat>
    requires s <= rows.Keys
  {
    if limit == 0 || s == {} then []
    else var x := First(rows, s); [x] + Select(rows, s - {x}, limit - 1)
  }

  function EligibleIds<P>(rows: map<nat, Row<P>>, skipped: set<nat>, now: int, staleAfter: int): set<nat> {
    set id | id in rows && id !in skipped && Eligible(rows[id], now, staleAfter)
  }

  /** `ids` are the first `limit` members of `s` in queue order. */
  ghost predicate FirstInOrder<P>(ids: seq<nat>, rows: map<nat, Row<P>>, s: set<nat>, limit: nat)
    requires s <= rows.Keys
  {
    && Distinct(ids)
    && SeqSet(ids) <= s
    && |ids| == Min(limit, |s|)
    && (forall i, j | 0 <= i < j < |ids| :: Before(rows, ids[i], ids[j]))
    && (forall i, y | 0 <= i < |ids| && y in s && y !in ids :: Before(rows, ids[i], y))
  }

  lemma {:induction false} SelectIsFirstInOrder<P>(rows: map<nat, Row<P>>, s: set<nat>, limit: nat)
    requires s <= rows.Keys
    ensures FirstInOrder(Select(rows, s, limit), rows, s, limit)
  {
    if limit != 0 && s != {} {
      var x := First(rows, s);
      var rest := Select(rows, s - {x}, limit - 1);
      SelectIsFirstInOrder(rows, s - {x}, limit - 1);
      assert |s - {x}| == |s| - 1;
      assert forall k | 0 <= k < |rest| :: rest[k] in SeqSet(rest);
    }
  }

  /** A waiting row whose time has come, or a row in progress whose claim is `staleAfter` old. */
  ghost predicate RipeAt<P>(rows: map<nat, Row<P>>, id: nat, now: int, staleAfter: int)
    requires id in rows
  {
    var r := rows[id];
    if r.status.Pending? then r.availableAt <= now
    else r.status.Processing? && r.startedAt.Some? && r.startedAt.value + staleAfter <= now
  }

  /**
   What the claiming query promises, by the columns it reads: at most `limit` different rows, all of
   them ripe and not skipped, in the order of availability, creation and id; and a ripe row is left
   out only when `limit` rows that precede it are returned.
   */
  ghost predicate ClaimsFirst<P>(ids: seq<nat>, rows: map<nat, Row<P>>, skipped: set<nat>, now: int, staleAfter: int, limit: nat) {
    && Distinct(ids) && |ids| <= limit
    && (forall id | id in ids :: id in rows && id !in skipped && RipeAt(rows, id, now, staleAfter))
    && (forall i, j | 0 <= i < j < |ids| :: Precedes(rows[ids[i]], ids[i], rows[ids[j]], ids[j]))
    && (forall id | id in rows && id !in skipped && id !in ids && RipeAt(rows, id, now, staleAfter) ::
          |ids| == limit && forall x | x in ids :: Precedes(rows[x], x, rows[id], id))
  }

  ghost predicate Precedes<P>(r: Row<P>, a: nat, r': Row<P>, b: nat) {
    || r.availableAt < r'.availableAt
    || (r.availableAt == r'.availableAt && r.createdAt < r'.createdAt)
    || (r.availableAt == r'.availableAt && r.createdAt == r'.createdAt && a < b)
  }

  lemma FirstClaims<P>(ids: seq<nat>, rows: map<nat, Row<P>>, skipped: set<nat>, now: int, staleAfter: int, limit: nat)
    requires FirstInOrder(ids, rows, EligibleIds(rows, skipped, now, staleAfter), limit)
    ensures ClaimsFirst(ids, rows, skipped, now, staleAfter, limit)
  {
    var s := EligibleIds(rows, skipped, now, staleAfter);
    forall id | id in ids ensures id in s { assert id in SeqSet(ids); }
    DistinctSize(ids);
    forall id | id in rows && id !in skipped && id !in ids && RipeAt(rows, id, now, staleAfter)
      ensures |ids| == limit && forall x | x in ids :: Precedes(rows[x], x, rows[id], id)
    {
      assert id in s;
      if |ids| == |s| { SubsetSizeEqual(SeqSet(ids), s); }
    }
  }

  lemma SubsetSizeEqual(a: set<nat>, b: set<nat>)
    requires a <= b && |a| == |b|
    ensures a == b
  {
    assert a + b == b && a * b == a;
    assert |b - a| == 0;
  }

  function ClaimAll<P>(rows: map<nat, Row<P>>, ids: set<nat>, now: int): map<nat, Row<P>> {
    map id | id in rows :: if id in ids then ClaimRow(rows[id], now) else rows[id]
  }

  // ----- the queue as a state machine

  /** An open claiming transaction: the locked rows in selection order, as loaded. */
  datatype Pick<+P> = Pick(ids: seq<nat>, now: int, staleAfter: int, loaded: map<nat, Row<P>>)

  datatype Queue<+P> = Queue(rows: map<nat, Row<P>>, locks: map<nat, Pick<P>>)

  datatype Event<+P> =
    | Insert(id: nat, payload: P, at: int)
    | SelectForUpdate(worker: nat, at: int, staleAfter: int, limit: nat)
    | Commit(worker: nat)
    | Rollback(worker: nat)
    | Finalise(id: nat, token: int, action: Action, at: int)

  function LockedIds<P>(q: Queue<P>): set<nat> {
    set w, id | w in q.locks && id in q.locks[w].ids :: id
  }

  /** One transaction step; an event that is not possible in `q` leaves it as it is. */
  function Step<P>(q: Queue<P>, e: Event<P>): Queue<P> {
    match e
    case Insert(id, payload, at) =>
      if id in q.rows then q else q.(rows := q.rows[id := NewRow(payload, at)])
    case SelectForUpdate(w, at, staleAfter, limit) =>
      if w in q.locks then q else
        var ids := Select(q.rows, EligibleIds(q.rows, LockedIds(q), at, staleAfter), limit);
        q.(locks := q.locks[w := Pick(ids, at, staleAfter, map id | id in ids && id in q.rows :: q.rows[id])])
    case Commit(w) =>
      if w !in q.locks then q else
        var pick := q.locks[w];
        Queue(map id | id in q.rows ::
                if id in pick.loaded then ClaimRow(pick.loaded[id], pick.now) else q.rows[id],
              q.locks - {w})
    case Rollback(w) => q.(locks := q.locks - {w})
    case Finalise(id, token, action, at) =>
      if id in LockedIds(q) then q else q.(rows := Act(q.rows, id, token, action, at))
  }

  function Run<P>(q: Queue<P>, es: seq<Event<P>>): Queue<P>
    decreases |es|
  {
    if es == [] then q else Run(Step(q, es[0]), es[1..])
  }

  /** What SKIP LOCKED guarantees at every moment: each open pick still owns and mirrors its rows. */
  ghost predicate LocksHold<P>(q: Queue<P>) {
    && (forall w | w in q.locks :: PickHolds(q.rows, q.locks[w]))
    && (forall v, w, id | v in q.locks && w in q.locks && id in q.locks[v].ids && id in q.locks[w].ids :: v == w)
  }

  ghost predicate PickHolds<P>(rows: map<nat, Row<P>>, pick: Pick<P>) {
    && Distinct(pick.ids)
    && pick.loaded.Keys == SeqSet(pick.ids)
    && (forall id | id in pick.ids :: id in rows && rows[id] == pick.loaded[id] && Claimable(rows[id]))
    && (forall id | id in pick.ids :: RipeAt(rows, id, pick.now, pick.staleAfter))
  }

  lemma SelectedPickHolds<P>(q: Queue<P>, ids: seq<nat>, at: int, staleAfter: int, limit: nat)
    requires FirstInOrder(ids, q.rows, EligibleIds(q.rows, LockedIds(q), at, staleAfter), limit)
    ensures PickHolds(q.rows, Pick(ids, at, staleAfter, map id | id in ids && id in q.rows :: q.rows[id]))
    ensures forall id | id in ids :: id !in LockedIds(q)
  {
    forall id | id in ids ensures id in EligibleIds(q.rows, LockedIds(q), at, staleAfter) { assert id in SeqSet(ids); }
  }

  lemma SelectKeepsLocks<P>(q: Queue<P>, w: nat, at: int, staleAfter: int, limit: nat)
    requires LocksHold(q)
    ensures LocksHold(Step(q, SelectForUpdate(w, at, staleAfter, limit)))
  {
    if w !in q.locks {
      var s := EligibleIds(q.rows, LockedIds(q), at, staleAfter);
      SelectIsFirstInOrder(q.rows, s, limit);
      var q' := Step(q, SelectForUpdate(w, at, staleAfter, limit));
      var ids := q'.locks[w].ids;
      SelectedPickHolds(q, ids, at, staleAfter, limit);
      assert forall v | v in q'.locks && v != w :: q'.locks[v] == q.locks[v];
      assert forall v, id | v in q.locks && id in q.locks[v].ids :: id in LockedIds(q) && id !in ids;
    }
  }

  /** Changes outside the locked rows do not disturb the open picks. */
  lemma UntouchedLocksHold<P>(q: Queue<P>, q': Queue<P>)
    requires LocksHold(q)
    requires q'.locks.Keys <= q.locks.Keys && forall w | w in q'.locks :: q'.locks[w] == q.locks[w]
    requires forall id | id in LockedIds(q') :: id in q.rows && id in q'.rows && q'.rows[id] == q.rows[id]
    ensures LocksHold(q')
  {
    forall w | w in q'.locks ensures PickHolds(q'.rows, q'.locks[w]) {
      assert PickHolds(q.rows, q.locks[w]);
      assert forall id | id in q'.locks[w].ids :: id in LockedIds(q');
    }
  }

  /** Lock sets stay disjoint and locked rows stay frozen whatever the workers do. */
  lemma StepKeepsLocks<P>(q: Queue<P>, e: Event<P>)
    requires LocksHold(q)
    ensures LocksHold(Step(q, e))
  {
    assert forall id | id in LockedIds(q) :: id in q.rows;
    if e.SelectForUpdate? {
      SelectKeepsLocks(q, e.worker, e.at, e.staleAfter, e.limit);
    } else {
      UntouchedLocksHold(q, Step(q, e));
    }
  }

  lemma {:induction false} RunKeepsLocks<P>(q: Queue<P>, es: seq<Event<P>>)
    requires LocksHold(q)
    decreases |es|
    ensures LocksHold(Run(q, es))
  {
    if es != [] {
      StepKeepsLocks(q, es[0]);
      RunKeepsLocks(Step(q, es[0]), es[1..]);
    }
  }

  /**
   Concurrent claiming.  A selection takes exactly the first `limit` eligible rows that nobody
   else has locked, whatever happened before.
   */
  lemma SelectionIsExact<P>(q: Queue<P>, w: nat, at: int, staleAfter: int, limit: nat)
    requires LocksHold(q) && w !in q.locks
    ensures var s := EligibleIds(q.rows, LockedIds(q), at, staleAfter);
            var q' := Step(q, SelectForUpdate(w, at, staleAfter, limit));
            && w in q'.locks && FirstInOrder(q'.locks[w].ids, q.rows, s, limit)
            && ClaimsFirst(q'.locks[w].ids, q.rows, LockedIds(q), at, staleAfter, limit)
            && SeqSet(q'.locks[w].ids) !! LockedIds(q)
            && q'.rows == q.rows
  {
    var s := EligibleIds(q.rows, LockedIds(q), at, staleAfter);
    SelectIsFirstInOrder(q.rows, s, limit);
    FirstClaims(Select(q.rows, s, limit), q.rows, LockedIds(q), at, staleAfter, limit);
  }

  /**
   No lost update: although the commit writes `attempts` computed from the rows as loaded, any
   steps of others in between included, it acts on the rows as they are now.
   */
  lemma CommitClaimsCurrentRows<P>(q: Queue<P>, es: seq<Event<P>>, w: nat)
    requires LocksHold(q) && w in Run(q, es).locks
    ensures var now := Run(q, es);
            var pick := now.locks[w];
            && SeqSet(pick.ids) <= now.rows.Keys
            && (forall id | id in pick.ids :: Claimable(now.rows[id]))
            && Step(now, Commit(w)).rows == ClaimAll(now.rows, SeqSet(pick.ids), pick.now)
  {
    RunKeepsLocks(q, es);
    assert PickHolds(Run(q, es).rows, Run(q, es).locks[w]);
  }
}
