/** The life of a queue row under any workers: fencing, absorbing ends, and the ledger of attempts. */
module QueueLaws {
  import opened Common
  import opened FencedQueue

  // ----- the life of one row

  /** The changes one row can undergo; a claim carries the stale period it was made with. */
  datatype Change =
    | Claimed(reclaim: bool, issued: nat, claimedAt: int, staleAfter: int)
    | Ended(holder: int, action: Action, endedAt: int)

  /** A new claim takes a waiting row whose time has come; a reclaim one whose claim is `staleAfter` old. */
  predicate Enabled<P>(r: Row<P>, c: Change) {
    match c
    case Claimed(reclaim, issued, at, staleAfter) =>
      && issued == r.attempts + 1
      && if reclaim then r.status.Processing? && r.startedAt.Some? && r.startedAt.value + staleAfter <= at
         else r.status.Pending? && r.availableAt <= at
    case Ended(holder, _, _) => r.status.Processing? && holder == r.attempts
  }

  function Undergo<P>(r: Row<P>, c: Change): Row<P> {
    match c
    case Claimed(_, _, at, _) => ClaimRow(r, at)
    case Ended(_, action, at) => ActRow(r, action, at)
  }

  function Play<P>(r: Row<P>, cs: seq<Change>): Row<P>
    decreases |cs|
  {
    if cs == [] then r else Play(Undergo(r, cs[0]), cs[1..])
  }

  predicate Follows<P>(r: Row<P>, cs: seq<Change>)
    decreases |cs|
  {
    cs == [] || (Enabled(r, cs[0]) && Follows(Undergo(r, cs[0]), cs[1..]))
  }

  /** What event `e` does to row `id`, as a sequence of no or one change. */
  function ChangeBy<P>(q: Queue<P>, e: Event<P>, id: nat): seq<Change>
    requires id in q.rows
  {
    match e
    case Commit(w) =>
      if w in q.locks && id in q.locks[w].loaded then
        [Claimed(q.rows[id].status.Processing?, q.rows[id].attempts + 1, q.locks[w].now, q.locks[w].staleAfter)]
      else []
    case Finalise(id', token, action, at) =>
      if id' == id && id !in LockedIds(q) && Guard(q.rows, id, token).None? then [Ended(token, action, at)] else []
    case _ => []
  }

  /** The changes row `id` undergoes in a run. */
  function History<P>(q: Queue<P>, es: seq<Event<P>>, id: nat): seq<Change>
    requires id in q.rows
    decreases |es|
  {
    if es == [] then [] else ChangeBy(q, es[0], id) + History(Step(q, es[0]), es[1..], id)
  }

  lemma StepFollowsLife<P>(q: Queue<P>, e: Event<P>, id: nat)
    requires LocksHold(q) && id in q.rows
    ensures id in Step(q, e).rows
    ensures Follows(q.rows[id], ChangeBy(q, e, id))
    ensures Step(q, e).rows[id] == Play(q.rows[id], ChangeBy(q, e, id))
  {
    if e.Commit? && e.worker in q.locks {
      assert PickHolds(q.rows, q.locks[e.worker]);
    }
  }

  lemma {:induction false} PlayAppend<P>(r: Row<P>, a: seq<Change>, b: seq<Change>)
    ensures Play(r, a + b) == Play(Play(r, a), b)
    ensures Follows(r, a + b) <==> Follows(r, a) && Follows(Play(r, a), b)
    decreases |a|
  {
    if a == [] {
      assert a + b == b;
    } else {
      assert (a + b)[0] == a[0] && (a + b)[1..] == a[1..] + b;
      PlayAppend(Undergo(r, a[0]), a[1..], b);
    }
  }

  /** In every run of any workers, each row lives a legal life and ends where that life leads. */
  lemma {:induction false} RunFollowsLife<P>(q: Queue<P>, es: seq<Event<P>>, id: nat)
    requires LocksHold(q) && id in q.rows
    ensures id in Run(q, es).rows
    ensures Follows(q.rows[id], History(q, es, id))
    ensures Run(q, es).rows[id] == Play(q.rows[id], History(q, es, id))
    decreases |es|
  {
    if es != [] {
      var q' := Step(q, es[0]);
      StepKeepsLocks(q, es[0]);
      StepFollowsLife(q, es[0], id);
      RunFollowsLife(q', es[1..], id);
      PlayAppend(q.rows[id], ChangeBy(q, es[0], id), History(q', es[1..], id));
    }
  }

  // ----- fencing

  function Tokens(cs: seq<Change>): seq<nat> {
    if cs == [] then [] else (if cs[0].Claimed? then [cs[0].issued] else []) + Tokens(cs[1..])
  }

  lemma {:induction false} LifeTokens<P>(r: Row<P>, cs: seq<Change>)
    requires Follows(r, cs)
    ensures Play(r, cs).attempts == r.attempts + |Tokens(cs)|
    ensures forall i | 0 <= i < |Tokens(cs)| :: Tokens(cs)[i] == r.attempts + 1 + i
    decreases |cs|
  {
    if cs != [] {
      var r' := Undergo(r, cs[0]);
      LifeTokens(r', cs[1..]);
    }
  }

  /** Claim tokens of a row are consecutive numbers, hence strictly increasing, and none is lost. */
  lemma TokensAreConsecutive<P>(q: Queue<P>, es: seq<Event<P>>, id: nat)
    requires LocksHold(q) && id in q.rows
    ensures var tokens := Tokens(History(q, es, id));
            && (forall i | 0 <= i < |tokens| :: tokens[i] == q.rows[id].attempts + 1 + i)
            && id in Run(q, es).rows
            && Run(q, es).rows[id].attempts == q.rows[id].attempts + |tokens|
  {
    RunFollowsLife(q, es, id);
    LifeTokens(q.rows[id], History(q, es, id));
  }

  /** Whoever ends an attempt holds the newest token issued so far. */
  lemma OnlyNewestTokenEnds<P>(r: Row<P>, before: seq<Change>, end: Change, after: seq<Change>)
    requires Follows(r, before + [end] + after) && end.Ended?
    ensures end.holder == r.attempts + |Tokens(before)|
  {
    PlayAppend(r, before + [end], after);
    PlayAppend(r, before, [end]);
    LifeTokens(r, before);
  }

  function Wins(cs: seq<Change>, token: int): nat {
    if cs == [] then 0 else (if cs[0].Ended? && cs[0].holder == token then 1 else 0) + Wins(cs[1..], token)
  }

  /** A token below the counter, or equal to it on a row that is not PROCESSING, is spent. */
  predicate Spent<P>(r: Row<P>, token: int) {
    token < r.attempts || (token == r.attempts && !r.status.Processing?)
  }

  lemma {:induction false} SpentTokensNeverWin<P>(r: Row<P>, cs: seq<Change>, token: int)
    requires Follows(r, cs) && Spent(r, token)
    ensures Wins(cs, token) == 0 && Spent(Play(r, cs), token)
    decreases |cs|
  {
    if cs != [] {
      SpentTokensNeverWin(Undergo(r, cs[0]), cs[1..], token);
    }
  }

  lemma {:induction false} LifeWinsOnce<P>(r: Row<P>, cs: seq<Change>, token: int)
    requires Follows(r, cs)
    ensures Wins(cs, token) <= 1
    decreases |cs|
  {
    if cs != [] {
      var r' := Undergo(r, cs[0]);
      if cs[0].Ended? && cs[0].holder == token {
        SpentTokensNeverWin(r', cs[1..], token);
      } else {
        LifeWinsOnce(r', cs[1..], token);
      }
    }
  }

  /** Each token finalises its row at most once in any run. */
  lemma EachTokenEndsOnce<P>(q: Queue<P>, es: seq<Event<P>>, id: nat, token: int)
    requires LocksHold(q) && id in q.rows
    ensures Wins(History(q, es, id), token) <= 1
  {
    RunFollowsLife(q, es, id);
    LifeWinsOnce(q.rows[id], History(q, es, id), token);
  }

  /** Once a token is spent, an attempt to end with it changes nothing, in any continuation. */
  lemma SpentClaimIsPowerless<P>(q: Queue<P>, es: seq<Event<P>>, id: nat, token: int, action: Action, at: int)
    requires LocksHold(q) && id in q.rows && Spent(q.rows[id], token)
    ensures Step(Run(q, es), Finalise(id, token, action, at)) == Run(q, es)
  {
    RunFollowsLife(q, es, id);
    SpentTokensNeverWin(q.rows[id], History(q, es, id), token);
  }

  /** COMPLETED and FAILED are absorbing: no run of any workers touches such a row again. */
  lemma TerminalRowsNeverChange<P>(q: Queue<P>, es: seq<Event<P>>, id: nat)
    requires LocksHold(q) && id in q.rows && !Claimable(q.rows[id])
    ensures id in Run(q, es).rows && Run(q, es).rows[id] == q.rows[id]
  {
    RunFollowsLife(q, es, id);
  }

  // ----- timing

  lemma {:induction false} LifeAt<P>(r: Row<P>, cs: seq<Change>, i: nat)
    requires Follows(r, cs) && i < |cs|
    ensures Enabled(Play(r, cs[..i]), cs[i]) && Play(r, cs[..i + 1]) == Undergo(Play(r, cs[..i]), cs[i])
    decreases |cs|
  {
    if i == 0 {
      assert cs[..1][1..] == [] && cs[..0] == [];
    } else {
      var r' := Undergo(r, cs[0]);
      LifeAt(r', cs[1..], i - 1);
      assert cs[..i][0] == cs[0] && cs[..i][1..] == cs[1..][..i - 1];
      assert cs[..i + 1][0] == cs[0] && cs[..i + 1][1..] == cs[1..][..i];
    }
  }

  /** When a claim may follow the change before it. */
  ghost predicate Timely(before: Change, claim: Change)
    requires claim.Claimed?
  {
    match before
    case Claimed(_, _, claimedAt, _) => claim.reclaim && claimedAt + claim.staleAfter <= claim.claimedAt
    case Ended(_, Release, endedAt) => !claim.reclaim && endedAt <= claim.claimedAt
    case Ended(holder, Fail(_, maxAttempts, retryDelay), endedAt) =>
      !claim.reclaim && holder < maxAttempts && endedAt + retryDelay <= claim.claimedAt
    case Ended(_, Complete, _) => false
  }

  lemma LifeIsTimely<P>(r: Row<P>, cs: seq<Change>, i: nat)
    requires Follows(r, cs) && i < |cs| && cs[i].Claimed?
    ensures i > 0 ==> Timely(cs[i - 1], cs[i])
    ensures i == 0 && r.status.Pending? ==> !cs[0].reclaim && r.availableAt <= cs[0].claimedAt
  {
    LifeAt(r, cs, i);
    assert cs[..0] == [];
    if i > 0 { LifeAt(r, cs, i - 1); }
  }

  /**
   No claim is taken away from a worker before it is stale, and no row is claimed before its time: a
   reclaim comes at least its stale period after the claim before it, a new claim no earlier than the
   row was available, which after a failure is `retryDelay` later, and nothing follows a completion
   or a failure at the cap.
   */
  lemma ClaimsWaitTheirTime<P>(q: Queue<P>, es: seq<Event<P>>, id: nat, i: nat)
    requires LocksHold(q) && id in q.rows
    requires i < |History(q, es, id)| && History(q, es, id)[i].Claimed?
    ensures var cs := History(q, es, id);
            && (i > 0 ==> Timely(cs[i - 1], cs[i]))
            && (i == 0 && q.rows[id].status.Pending? ==> !cs[0].reclaim && q.rows[id].availableAt <= cs[0].claimedAt)
  {
    RunFollowsLife(q, es, id);
    LifeIsTimely(q.rows[id], History(q, es, id), i);
  }

  /** What a row says about the last change made to it. */
  ghost predicate Shows<P>(r: Row<P>, c: Change) {
    match c
    case Claimed(_, issued, at, _) =>
      r.status.Processing? && r.attempts == issued && r.startedAt == Some(at) && r.completedAt == None && r.lastError == None
    case Ended(holder, Complete, at) =>
      r.status.Completed? && r.attempts == holder && r.completedAt == Some(at) && r.lastError == None
    case Ended(holder, Release, at) =>
      r.status.Pending? && r.attempts == holder && r.availableAt == at && r.startedAt == None && r.completedAt == None
    case Ended(holder, Fail(message, maxAttempts, retryDelay), at) =>
      && r.attempts == holder && r.lastError == Some(message)
      && if holder < maxAttempts then
           r.status.Pending? && r.availableAt == at + retryDelay && r.startedAt == None && r.completedAt == None
         else r.status.Failed? && r.completedAt == Some(at)
  }

  lemma {:induction false} LifeShowsLast<P>(r: Row<P>, cs: seq<Change>)
    requires Follows(r, cs) && cs != []
    ensures Shows(Play(r, cs), cs[|cs| - 1])
  {
    LifeAt(r, cs, |cs| - 1);
    assert cs[..|cs|] == cs;
  }

  lemma {:induction false} LifeKeepsOrigin<P>(r: Row<P>, cs: seq<Change>)
    ensures Play(r, cs).payload == r.payload && Play(r, cs).createdAt == r.createdAt
    decreases |cs|
  {
    if cs != [] { LifeKeepsOrigin(Undergo(r, cs[0]), cs[1..]); }
  }

  /** In every run a row shows the last change made to it, and never another payload or creation time. */
  lemma RowShowsLastChange<P>(q: Queue<P>, es: seq<Event<P>>, id: nat)
    requires LocksHold(q) && id in q.rows
    ensures id in Run(q, es).rows
    ensures var r, cs := Run(q, es).rows[id], History(q, es, id);
            && (if cs == [] then r == q.rows[id] else Shows(r, cs[|cs| - 1]))
            && r.payload == q.rows[id].payload && r.createdAt == q.rows[id].createdAt
  {
    RunFollowsLife(q, es, id);
    if History(q, es, id) != [] { LifeShowsLast(q.rows[id], History(q, es, id)); }
    LifeKeepsOrigin(q.rows[id], History(q, es, id));
  }

  // ----- the attempt ledger

  function Retries(cs: seq<Change>): nat {
    if cs == [] then 0 else (if IsRetry(cs[0]) then 1 else 0) + Retries(cs[1..])
  }

  predicate IsRetry(c: Change) {
    c.Ended? && c.action.Fail? && c.holder < c.action.maxAttempts
  }

  function Releases(cs: seq<Change>): nat {
    if cs == [] then 0 else (if cs[0].Ended? && cs[0].action.Release? then 1 else 0) + Releases(cs[1..])
  }

  function Reclaims(cs: seq<Change>): nat {
    if cs == [] then 0 else (if cs[0].Claimed? && cs[0].reclaim then 1 else 0) + Reclaims(cs[1..])
  }

  /** The attempts that are over: all of them while PENDING, all but the last otherwise. */
  function OverAttempts<P>(r: Row<P>): int {
    r.attempts - (if r.status.Pending? then 0 else 1)
  }

  lemma {:induction false} LifeLedger<P>(r: Row<P>, cs: seq<Change>)
    requires Follows(r, cs)
    ensures OverAttempts(Play(r, cs)) == OverAttempts(r) + Retries(cs) + Releases(cs) + Reclaims(cs)
    decreases |cs|
  {
    if cs != [] {
      LifeLedger(Undergo(r, cs[0]), cs[1..]);
    }
  }

  /** Every attempt of a new row is accounted for, in every reachable state. */
  lemma AttemptLedger<P>(q: Queue<P>, es: seq<Event<P>>, id: nat)
    requires LocksHold(q) && id in q.rows && q.rows[id].status.Pending? && q.rows[id].attempts == 0
    ensures var cs := History(q, es, id);
            && id in Run(q, es).rows
            && var r := Run(q, es).rows[id];
            && r.attempts == Retries(cs) + Releases(cs) + Reclaims(cs) + (if r.status.Pending? then 0 else 1)
  {
    RunFollowsLife(q, es, id);
    LifeLedger(q.rows[id], History(q, es, id));
  }

  /** All failures are judged against the same cap. */
  predicate CappedBy(cs: seq<Change>, maxAttempts: int) {
    forall c | c in cs :: c.Ended? && c.action.Fail? ==> c.action.maxAttempts == maxAttempts
  }

  lemma {:induction false} LifeRetriesCapped<P>(r: Row<P>, cs: seq<Change>, maxAttempts: int)
    requires Follows(r, cs) && CappedBy(cs, maxAttempts)
    ensures Retries(cs) <= Max(0, maxAttempts - 1 - OverAttempts(r))
    decreases |cs|
  {
    if cs != [] {
      var r' := Undergo(r, cs[0]);
      assert cs[0] in cs && forall c | c in cs[1..] :: c in cs;
      LifeRetriesCapped(r', cs[1..], maxAttempts);
    }
  }

  /**
   The cap limits retries, not attempts: a new row is rescheduled by failure at most
   `maxAttempts - 1` times, and anything beyond the cap is due to releases and stale reclaims.
   */
  lemma AttemptsBound<P>(q: Queue<P>, es: seq<Event<P>>, id: nat, maxAttempts: int)
    requires LocksHold(q) && id in q.rows && q.rows[id].status.Pending? && q.rows[id].attempts == 0
    requires CappedBy(History(q, es, id), maxAttempts)
    ensures var cs := History(q, es, id);
            && Retries(cs) <= Max(0, maxAttempts - 1)
            && id in Run(q, es).rows
            && Run(q, es).rows[id].attempts <= Max(1, maxAttempts) + Releases(cs) + Reclaims(cs)
  {
    AttemptLedger(q, es, id);
    RunFollowsLife(q, es, id);
    LifeRetriesCapped(q.rows[id], History(q, es, id), maxAttempts);
  }

  /** A worker claims the oldest due row at `now`, and again whenever the claim before has become stale. */
  function Reclaiming<P>(now: int, staleAfter: int, n: nat): seq<Event<P>>
    decreases n
  {
    if n == 0 then []
    else [SelectForUpdate(0, now, staleAfter, 1), Commit(0)] + Reclaiming(now + staleAfter, staleAfter, n - 1)
  }

  lemma SoleRowIsClaimed<P>(r: Row<P>, now: int, staleAfter: int)
    requires Eligible(r, now, staleAfter)
    ensures var q := Queue(map[0 := r], map[]);
            var q1 := Step(q, SelectForUpdate(0, now, staleAfter, 1));
            && q1.rows == q.rows && q1.locks.Keys == {0} && q1.locks[0].loaded == q.rows && q1.locks[0].now == now
            && Step(q1, Commit(0)) == Queue(map[0 := ClaimRow(r, now)], map[])
  {
    var q := Queue(map[0 := r], map[]);
    assert LockedIds(q) == {};
    assert EligibleIds(q.rows, {}, now, staleAfter) == {0};
    assert Select(q.rows, {0}, 1) == [0];
  }

  lemma TwoEvents<P>(q: Queue<P>, e1: Event<P>, e2: Event<P>, rest: seq<Event<P>>, id: nat)
    requires id in q.rows && id in Step(q, e1).rows && id in Step(Step(q, e1), e2).rows
    ensures var q1, q2 := Step(q, e1), Step(Step(q, e1), e2);
            && Run(q, [e1, e2] + rest) == Run(q2, rest)
            && History(q, [e1, e2] + rest, id) == ChangeBy(q, e1, id) + (ChangeBy(q1, e2, id) + History(q2, rest, id))
  {
    assert ([e1, e2] + rest)[1..] == [e2] + rest && ([e2] + rest)[1..] == rest;
  }

  /** The run only claims row 0, until `attempts` is `n`. */
  ghost predicate ClaimsUpTo<P>(q: Queue<P>, es: seq<Event<P>>, n: nat)
    requires 0 in q.rows
  {
    && 0 in Run(q, es).rows && Run(q, es).rows[0].attempts == n
    && forall c | c in History(q, es, 0) :: c.Claimed?
  }

  lemma ClaimedOnce<P>(r: Row<P>, now: int, staleAfter: int, rest: seq<Event<P>>, n: nat)
    requires Eligible(r, now, staleAfter) && ClaimsUpTo(Queue(map[0 := ClaimRow(r, now)], map[]), rest, n)
    ensures ClaimsUpTo(Queue(map[0 := r], map[]), [SelectForUpdate(0, now, staleAfter, 1), Commit(0)] + rest, n)
  {
    SoleRowIsClaimed(r, now, staleAfter);
    TwoEvents(Queue(map[0 := r], map[]), SelectForUpdate(0, now, staleAfter, 1), Commit(0), rest, 0);
  }

  lemma {:induction false} ReclaimingClaims<P>(r: Row<P>, now: int, staleAfter: int, n: nat)
    requires Eligible(r, now, staleAfter)
    ensures ClaimsUpTo(Queue(map[0 := r], map[]), Reclaiming(now, staleAfter, n), r.attempts + n)
    decreases n
  {
    if n != 0 {
      ReclaimingClaims(ClaimRow(r, now), now + staleAfter, staleAfter, n - 1);
      ClaimedOnce(r, now, staleAfter, Reclaiming(now + staleAfter, staleAfter, n - 1), r.attempts + n);
    }
  }

  /**
   The cap does not bound `attempts`: claiming never looks at it.  For every stale period and every
   cap, a new row reaches any number of attempts by being claimed again each time its claim has
   become stale; nothing the cap judges happens, and `n` may be beyond it.
   */
  lemma AttemptsAreUnbounded<P>(payload: P, now: int, staleAfter: int, maxAttempts: int, n: nat)
    ensures var q, es := Queue(map[0 := NewRow(payload, now)], map[]), Reclaiming(now, staleAfter, n);
            && CappedBy(History(q, es, 0), maxAttempts) && Retries(History(q, es, 0)) == 0
            && 0 in Run(q, es).rows && Run(q, es).rows[0].attempts == n
  {
    var q, es := Queue(map[0 := NewRow(payload, now)], map[]), Reclaiming<P>(now, staleAfter, n);
    ReclaimingClaims(NewRow(payload, now), now, staleAfter, n);
    ClaimsRetryNothing(History(q, es, 0));
  }

  lemma {:induction false} ClaimsRetryNothing(cs: seq<Change>)
    requires forall c | c in cs :: c.Claimed?
    ensures Retries(cs) == 0
  {
    if cs != [] {
      assert cs[0] in cs && forall c | c in cs[1..] :: c in cs;
      ClaimsRetryNothing(cs[1..]);
    }
  }
}
