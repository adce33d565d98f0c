/**
 The queue table as the program handles it: row objects whose fields are assigned in place inside
 one transaction.  Every method is proved against the transition functions of FencedQueue.
 */
module TaskTable {
  import opened Common
  import opened FencedQueue

  const MAX_CLAIM_LIMIT := 100

  datatype Failure = ValueError | Refused(why: Refusal)

  /** The immutable snapshot a worker gets for a claimed row. */
  datatype Ticket<+P> = Ticket(id: nat, payload: P, token: nat, startedAt: int)

  function Ids<P>(tickets: seq<Ticket<P>>): (ids: seq<nat>) {
    seq(|tickets|, i requires 0 <= i < |tickets| => tickets[i].id)
  }

  function TicketFor<P>(rows: map<nat, Row<P>>, id: nat, now: int): Ticket<P>
    requires id in rows
  {
    Ticket(id, rows[id].payload, rows[id].attempts + 1, now)
  }

  class TaskRow<P> {
    var status: Status
    var attempts: nat
    var availableAt: int
    const createdAt: int
    var startedAt: Option<int>
    var completedAt: Option<int>
    var lastError: Option<string>
    const payload: P

    function Value(): Row<P>
      reads this
    {
      Row(status, attempts, availableAt, createdAt, startedAt, completedAt, lastError, payload)
    }

    constructor (payload: P, now: int)
      ensures Value() == NewRow(payload, now)
    {
      status, attempts, availableAt := Pending, 0, now;
      createdAt, this.payload := now, payload;
      startedAt, completedAt, lastError := None, None, None;
    }

    method Claim(now: int)
      modifies this
      ensures Value() == ClaimRow(old(Value()), now)
    {
      status := Processing;
      attempts := attempts + 1;
      startedAt := Some(now);
      completedAt := None;
      lastError := None;
    }

    method Complete(now: int)
      modifies this
      ensures Value() == ActRow(old(Value()), Action.Complete, now)
    {
      status := Completed;
      completedAt := Some(now);
      lastError := None;
    }

    method Release(now: int)
      modifies this
      ensures Value() == ActRow(old(Value()), Action.Release, now)
    {
      status := Pending;
      availableAt := now;
      startedAt := None;
      completedAt := None;
    }

    method Fail(message: string, maxAttempts: int, retryDelay: int, now: int) returns (outcome: Status)
      modifies this
      ensures Value() == ActRow(old(Value()), Action.Fail(message, maxAttempts, retryDelay), now)
      ensures outcome == status == DecideFailureOutcome(old(attempts), maxAttempts)
    {
      outcome := DecideFailureOutcome(attempts, maxAttempts);
      if outcome == Pending {
        status := Pending;
        availableAt := now + retryDelay;
        startedAt := None;
        completedAt := None;
      } else {
        status := Failed;
        completedAt := Some(now);
      }
      lastError := Some(message);
    }
  }

  /** A ticket and its row after the claim, by their fields. */
  ghost predicate Claimed<P>(t: Ticket<P>, before: map<nat, Row<P>>, after: map<nat, Row<P>>, now: int) {
    && t.id in before && t.id in after
    && t.token == before[t.id].attempts + 1 && t.startedAt == now && t.payload == before[t.id].payload
    && var r := after[t.id];
    && r.status.Processing? && r.attempts == t.token && r.startedAt == Some(now) && r.completedAt == None && r.lastError == None
    && r.availableAt == before[t.id].availableAt && r.createdAt == before[t.id].createdAt && r.payload == t.payload
  }

  lemma TicketsClaim<P>(rows: map<nat, Row<P>>, ids: seq<nat>, tickets: seq<Ticket<P>>, now: int)
    requires |tickets| == |ids| && forall id | id in ids :: id in rows
    requires forall i | 0 <= i < |ids| :: tickets[i] == TicketFor(rows, ids[i], now)
    ensures forall i | 0 <= i < |tickets| :: Claimed(tickets[i], rows, ClaimAll(rows, SeqSet(ids), now), now)
  {
  }

  /** A row that a guarded transition changed, by its fields. */
  ghost predicate Transitioned<P>(r: Row<P>, r': Row<P>, action: Action, now: int) {
    && r'.attempts == r.attempts && r'.createdAt == r.createdAt && r'.payload == r.payload
    && match action
       case Complete => r'.status.Completed? && r'.completedAt == Some(now) && r'.lastError == None
       case Release =>
         r'.status.Pending? && r'.availableAt == now && r'.startedAt == None && r'.completedAt == None && r'.lastError == r.lastError
       case Fail(message, maxAttempts, retryDelay) =>
         && r'.lastError == Some(message)
         && if r.attempts < maxAttempts then
              r'.status.Pending? && r'.availableAt == now + retryDelay && r'.startedAt == None && r'.completedAt == None
            else r'.status.Failed? && r'.completedAt == Some(now)
  }

  lemma ClaimedNext<P>(rows: map<nat, Row<P>>, ids: seq<nat>, i: nat, now: int)
    requires Distinct(ids) && i < |ids| && ids[i] in rows
    ensures var was := ClaimAll(rows, SeqSet(ids[..i]), now);
            && was[ids[i]] == rows[ids[i]]
            && ClaimAll(rows, SeqSet(ids[..i + 1]), now) == was[ids[i] := ClaimRow(rows[ids[i]], now)]
  {
    assert ids[i] !in ids[..i];
    assert ids[..i + 1] == ids[..i] + [ids[i]];
  }

  class TaskTable<P> {
    var rows: map<nat, TaskRow<P>>

    /** Distinct ids are distinct row objects. */
    ghost predicate Valid()
      reads this
    {
      forall a, b | a in rows && b in rows && a != b :: rows[a] != rows[b]
    }

    function View(): map<nat, Row<P>>
      reads this, rows.Values
    {
      map id | id in rows :: rows[id].Value()
    }

    constructor ()
      ensures Valid() && View() == map[] && rows == map[]
    {
      rows := map[];
    }

    method Insert(id: nat, payload: P, now: int)
      requires Valid() && id !in rows
      modifies this
      ensures Valid() && View() == old(View())[id := NewRow(payload, now)]
      ensures View()[id] == Row(Pending, 0, now, now, None, None, None, payload)
      ensures id in rows && fresh(rows[id]) && rows == old(rows)[id := rows[id]]
    {
      var row := new TaskRow(payload, now);
      rows := rows[id := row];
    }

    /** One claiming transaction; `lockedByOthers` are the rows SKIP LOCKED passes over. */
    method ClaimTasks(limit: int, staleAfter: int, now: int, lockedByOthers: set<nat>)
      returns (r: Result<seq<Ticket<P>>, Failure>)
      requires Valid()
      modifies rows.Values
      ensures Valid() && rows == old(rows)
      ensures r.Err? <==> !(1 <= limit <= 100)
      ensures r.Err? ==> r.error == ValueError && View() == old(View())
      ensures r.Ok? ==>
        var s := EligibleIds(old(View()), lockedByOthers, now, staleAfter);
        var ids := Ids(r.value);
        && FirstInOrder(ids, old(View()), s, limit)
        && ClaimsFirst(ids, old(View()), lockedByOthers, now, staleAfter, limit)
        && View() == ClaimAll(old(View()), SeqSet(ids), now)
        && forall i | 0 <= i < |ids| :: r.value[i] == TicketFor(old(View()), ids[i], now)
      ensures r.Ok? ==> forall i | 0 <= i < |r.value| :: Claimed(r.value[i], old(View()), View(), now)
    {
      if !(1 <= limit <= MAX_CLAIM_LIMIT) {
        return Err(ValueError);
      }
      var ids := Select(View(), EligibleIds(View(), lockedByOthers, now, staleAfter), limit);
      SelectIsFirstInOrder(View(), EligibleIds(View(), lockedByOthers, now, staleAfter), limit);
      FirstClaims(ids, View(), lockedByOthers, now, staleAfter, limit);
      ghost var before := View();
      assert forall k | 0 <= k < |ids| :: ids[k] in SeqSet(ids);
      var tickets := StampAll(ids, now);
      assert Ids(tickets) == ids;
      TicketsClaim(before, ids, tickets, now);
      r := Ok(tickets);
    }

    /** The loop over the selected rows. */
    method StampAll(ids: seq<nat>, now: int) returns (tickets: seq<Ticket<P>>)
      requires Valid() && Distinct(ids) && forall id | id in ids :: id in rows
      modifies rows.Values
      ensures Valid() && rows == old(rows)
      ensures View() == ClaimAll(old(View()), SeqSet(ids), now)
      ensures |tickets| == |ids|
      ensures forall i | 0 <= i < |ids| :: tickets[i] == TicketFor(old(View()), ids[i], now)
    {
      ghost var before := View();
      tickets := [];
      for i := 0 to |ids|
        invariant |tickets| == i
        invariant forall k | 0 <= k < i :: tickets[k] == TicketFor(before, ids[k], now)
        invariant View() == ClaimAll(before, SeqSet(ids[..i]), now)
      {
        var row := rows[ids[i]];
        ghost var was := View();
        ClaimedNext(before, ids, i, now);
        assert was[ids[i]] == row.Value();
        row.Claim(now);
        assert View() == was[ids[i] := ClaimRow(was[ids[i]], now)];
        tickets := tickets + [Ticket(ids[i], row.payload, row.attempts, now)];
      }
      assert ids[..|ids|] == ids;
    }

    /** The guarded transition behind complete, fail and release. */
    method Transition(id: nat, token: int, action: Action, now: int) returns (r: Option<Refusal>)
      requires Valid()
      modifies rows.Values
      ensures Valid() && rows == old(rows)
      ensures r == Guard(old(View()), id, token)
      ensures View() == Act(old(View()), id, token, action, now)
      ensures r == Some(NotFound) <==> id !in old(View())
      ensures r == Some(InvalidTransition) <==> id in old(View()) && !old(View())[id].status.Processing?
      ensures r == Some(StaleClaim) <==>
        id in old(View()) && old(View())[id].status.Processing? && old(View())[id].attempts != token
      ensures r == None ==> id in View() && Transitioned(old(View())[id], View()[id], action, now)
    {
      if id !in rows {
        return Some(NotFound);
      }
      var row := rows[id];
      if row.status != Processing {
        return Some(InvalidTransition);
      }
      if row.attempts != token {
        return Some(StaleClaim);
      }
      match action {
        case Complete => row.Complete(now);
        case Fail(message, maxAttempts, retryDelay) => var _ := row.Fail(message, maxAttempts, retryDelay, now);
        case Release => row.Release(now);
      }
      r := None;
    }

    /** mark_indexing_task_completed: arguments are checked before the row is looked at. */
    method MarkCompleted(id: nat, expectedAttempt: int, now: int) returns (r: Option<Failure>)
      requires Valid()
      modifies rows.Values
      ensures Valid() && rows == old(rows)
      ensures expectedAttempt < 1 ==> r == Some(ValueError) && View() == old(View())
      ensures expectedAttempt >= 1 ==>
        && View() == Act(old(View()), id, expectedAttempt, Action.Complete, now)
        && r == (match Guard(old(View()), id, expectedAttempt) case None => None case Some(why) => Some(Refused(why)))
    {
      if expectedAttempt < 1 {
        return Some(ValueError);
      }
      var refusal := Transition(id, expectedAttempt, Action.Complete, now);
      r := if refusal.Some? then Some(Refused(refusal.value)) else None;
    }

    /** mark_indexing_task_failed */
    method MarkFailed(id: nat, expectedAttempt: int, message: string, maxAttempts: int, retryDelay: int, now: int)
      returns (r: Result<Status, Failure>)
      requires Valid()
      modifies rows.Values
      ensures Valid() && rows == old(rows)
      ensures expectedAttempt < 1 || maxAttempts < 1 || retryDelay < 0 ==>
        r == Err(ValueError) && View() == old(View())
      ensures expectedAttempt >= 1 && maxAttempts >= 1 && retryDelay >= 0 ==>
        && View() == Act(old(View()), id, expectedAttempt, Action.Fail(message, maxAttempts, retryDelay), now)
        && r == (match Guard(old(View()), id, expectedAttempt)
                 case Some(why) => Err(Refused(why))
                 case None => Ok(View()[id].status))
    {
      if expectedAttempt < 1 || maxAttempts < 1 || retryDelay < 0 {
        return Err(ValueError);
      }
      var refusal := Transition(id, expectedAttempt, Action.Fail(message, maxAttempts, retryDelay), now);
      r := if refusal.Some? then Err(Refused(refusal.value)) else Ok(rows[id].status);
    }
  }
}
