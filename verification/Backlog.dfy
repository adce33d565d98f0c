/**
 Fairness of the one-job-at-a-time worker: a backlog of n waiting jobs is served by n consecutive
 runs, whatever the runs do to the jobs they claim.
 */
module Backlog {
  import opened Common
  import opened FencedQueue

  /** One worker run that does not crash: it claims at `claimAt` and ends its claim at `endAt`. */
  datatype Turn = Turn(claimAt: int, endAt: int, action: Action)

  function ClaimOne<P>(rows: map<nat, Row<P>>, now: int, staleAfter: int): Option<nat> {
    var ids := Select(rows, EligibleIds(rows, {}, now, staleAfter), 1);
    if ids == [] then None else Some(ids[0])
  }

  function AfterTurn<P>(rows: map<nat, Row<P>>, t: Turn, staleAfter: int): map<nat, Row<P>> {
    match ClaimOne(rows, t.claimAt, staleAfter)
    case None => rows
    case Some(id) =>
      var claimed := ClaimAll(rows, {id}, t.claimAt);
      if id in claimed then Act(claimed, id, claimed[id].attempts, t.action, t.endAt) else claimed
  }

  /** The jobs claimed by consecutive runs. */
  function Served<P>(rows: map<nat, Row<P>>, turns: seq<Turn>, staleAfter: int): seq<Option<nat>>
    decreases |turns|
  {
    if turns == [] then []
    else [ClaimOne(rows, turns[0].claimAt, staleAfter)]
         + Served(AfterTurn(rows, turns[0], staleAfter), turns[1..], staleAfter)
  }

  /** Exactly the jobs in `waiting` became available before `horizon`; the rest are over or later. */
  ghost predicate WaitingBefore<P>(rows: map<nat, Row<P>>, waiting: set<nat>, horizon: int) {
    && (forall id | id in waiting :: id in rows && rows[id].status.Pending? && rows[id].availableAt < horizon)
    && (forall id | id in rows && id !in waiting :: Claimable(rows[id]) ==> rows[id].availableAt >= horizon)
  }

  /** Every clock is read after the horizon and retries are not moved into the past. */
  ghost predicate After(turns: seq<Turn>, horizon: int) {
    forall t | t in turns ::
      && t.claimAt >= horizon && t.endAt >= horizon
      && (t.action.Fail? ==> t.action.retryDelay >= 0)
  }

  lemma TurnServesBacklog<P>(rows: map<nat, Row<P>>, waiting: set<nat>, t: Turn, staleAfter: int, horizon: int)
    requires WaitingBefore(rows, waiting, horizon) && After([t], horizon) && waiting != {}
    ensures var id := ClaimOne(rows, t.claimAt, staleAfter);
            && id.Some? && id.value in waiting
            && WaitingBefore(AfterTurn(rows, t, staleAfter), waiting - {id.value}, horizon)
  {
    assert t in [t];
    var s := EligibleIds(rows, {}, t.claimAt, staleAfter);
    var w :| w in waiting;
    assert w in s;
    var id := First(rows, s);
    assert Select(rows, s, 1) == [id];
    assert Before(rows, id, w);
  }

  lemma OneMoreServed(id: nat, rest: seq<Option<nat>>, waiting: set<nat>)
    requires id in waiting && Distinct(rest) && SeqSet(rest) == set x | x in waiting - {id} :: Some(x)
    ensures Distinct([Some(id)] + rest)
    ensures SeqSet([Some(id)] + rest) == set x | x in waiting :: Some(x)
  {
    var all := [Some(id)] + rest;
    assert Some(id) !in SeqSet(rest);
    forall j | 0 <= j < |rest| ensures rest[j] != Some(id) { assert rest[j] in SeqSet(rest); }
    forall o ensures o in SeqSet(all) <==> o in set x | x in waiting :: Some(x) {
      assert o in all <==> o == Some(id) || o in rest;
      assert o in rest <==> o in SeqSet(rest);
    }
  }

  /**
   n runs claim n distinct jobs: no job of the backlog is passed over, and none is served twice
   before every other one has been served.
   */
  lemma {:induction false} BacklogIsServedFairly<P>(
    rows: map<nat, Row<P>>, waiting: set<nat>, turns: seq<Turn>, staleAfter: int, horizon: int)
    requires WaitingBefore(rows, waiting, horizon) && After(turns, horizon) && |turns| == |waiting|
    ensures var served := Served(rows, turns, staleAfter);
            && |served| == |waiting|
            && Distinct(served)
            && SeqSet(served) == set id | id in waiting :: Some(id)
    decreases |turns|
  {
    if turns != [] {
      var t := turns[0];
      assert t in turns && After([t], horizon) && After(turns[1..], horizon);
      TurnServesBacklog(rows, waiting, t, staleAfter, horizon);
      var id := ClaimOne(rows, t.claimAt, staleAfter);
      var rest := Served(AfterTurn(rows, t, staleAfter), turns[1..], staleAfter);
      BacklogIsServedFairly(AfterTurn(rows, t, staleAfter), waiting - {id.value}, turns[1..], staleAfter, horizon);
      OneMoreServed(id.value, rest, waiting);
    }
  }
}
