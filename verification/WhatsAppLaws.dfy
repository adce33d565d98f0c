/** What customers can rely on, over all runs of any number of WhatsApp workers. */
module WhatsAppLaws {
  import opened Common
  import opened Documents
  import opened Recommendations
  import opened WhatsAppWorker
  import opened WhatsAppInvariant
  import FencedQueue
  import QueueLaws

  // ----- at-least-once sending

  /** The claims of `job` whose reply was acknowledged, in order. */
  function AckTokens(sends: seq<Sent>, job: nat): seq<nat> {
    if sends == [] then []
    else
      var last := sends[|sends| - 1];
      AckTokens(sends[..|sends| - 1], job) + (if last.job == job then [last.token] else [])
  }

  function Acks(sends: seq<Sent>, job: nat): nat { |AckTokens(sends, job)| }

  ghost predicate AckedAt(sends: seq<Sent>, i: nat, job: nat, token: nat) {
    i < |sends| && sends[i].job == job && sends[i].token == token
  }

  lemma {:induction false} AckTokensAreSent(sends: seq<Sent>, job: nat, token: nat)
    ensures token in AckTokens(sends, job) <==> exists i :: AckedAt(sends, i, job, token)
  {
    if sends != [] {
      var front, n := sends[..|sends| - 1], |sends| - 1;
      AckTokensAreSent(front, job, token);
      if i: nat :| AckedAt(front, i, job, token) { assert AckedAt(sends, i, job, token); }
      if i: nat :| AckedAt(sends, i, job, token) { assert i == n || AckedAt(front, i, job, token); }
      if sends[n].job == job && sends[n].token == token { assert AckedAt(sends, n, job, token); }
    }
  }

  ghost predicate AcksApart(sends: seq<Sent>) {
    forall i, k | 0 <= i < k < |sends| :: sends[i].job != sends[k].job || sends[i].token != sends[k].token
  }

  lemma {:induction false} AckTokensDistinct(sends: seq<Sent>, job: nat)
    requires AcksApart(sends)
    ensures Distinct(AckTokens(sends, job))
  {
    if sends != [] {
      var front, last := sends[..|sends| - 1], sends[|sends| - 1];
      AckTokensDistinct(front, job);
      AckTokensAreSent(front, job, last.token);
      forall i: nat ensures !AckedAt(front, i, last.job, last.token) {
        if i < |front| { assert sends[i] == front[i]; }
      }
    }
  }

  /** The job is for a text message of a WhatsApp customer. */
  predicate ForWhatsAppText(w: World, j: nat) {
    j in w.jobs && w.jobs[j].payload in w.messages && NeedsReply(w.messages[w.jobs[j].payload])
  }

  /** A completed text job of a WhatsApp customer was answered: some reply to that customer was acknowledged. */
  lemma CompletedJobsWereAnswered(w: World, es: seq<Event>, j: nat)
    requires Invariant(w) && ForWhatsAppText(Run(w, es), j) && Run(w, es).jobs[j].status.Completed?
    ensures Acks(Run(w, es).sends, j) >= 1
  {
    var now := Run(w, es);
    RunKeepsInvariant(w, es);
    assert JobAnswered(now, j);
    var i :| 0 <= i < |now.sends| && now.sends[i].job == j;
    assert AckedAt(now.sends, i, j, now.sends[i].token);
    AckTokensAreSent(now.sends, j, now.sends[i].token);
  }

  /** Each attempt gets at most one reply acknowledged, so there are at most `attempts` of them. */
  lemma AcksWithinAttempts(w: World, es: seq<Event>, j: nat)
    requires Invariant(w) && j in Run(w, es).jobs
    ensures Acks(Run(w, es).sends, j) <= Run(w, es).jobs[j].attempts
  {
    var now := Run(w, es);
    var tokens := AckTokens(now.sends, j);
    RunKeepsInvariant(w, es);
    forall i, k | 0 <= i < k < |now.sends| ensures now.sends[i].job != now.sends[k].job || now.sends[i].token != now.sends[k].token {
      assert SendsApart(now, i, k);
    }
    AckTokensDistinct(now.sends, j);
    forall t | t in SeqSet(tokens) ensures 1 <= t <= now.jobs[j].attempts {
      AckTokensAreSent(now.sends, j, t);
      var i: nat :| AckedAt(now.sends, i, j, t);
      assert SendAt(now, i);
    }
    DistinctSize(tokens);
    BoundedSet(SeqSet(tokens), now.jobs[j].attempts);
  }

  /** Nothing is ever sent for a job of another channel or without text. */
  lemma OtherJobsAreNotAnswered(w: World, es: seq<Event>, j: nat)
    requires Invariant(w) && !ForWhatsAppText(Run(w, es), j)
    ensures Acks(Run(w, es).sends, j) == 0
  {
    var now := Run(w, es);
    RunKeepsInvariant(w, es);
    forall i: nat, t ensures !AckedAt(now.sends, i, j, t) { assert SendAt(now, i); }
    var tokens := AckTokens(now.sends, j);
    if tokens != [] { AckTokensAreSent(now.sends, j, tokens[0]); }
  }

  /** Every acknowledged reply went to the message's own customer, and promises only what is stored. */
  lemma RepliesAreBacked(w: World, es: seq<Event>, i: nat)
    requires Invariant(w) && i < |Run(w, es).sends|
    ensures var now := Run(w, es);
            var s := now.sends[i];
            && s.job in now.jobs && now.jobs[s.job].payload in now.messages
            && s.recipient == now.messages[now.jobs[s.job].payload].userId
            && Backed(now, now.jobs[s.job].payload, s.reply)
  {
    RunKeepsInvariant(w, es);
    assert SendAt(Run(w, es), i);
  }

  // ----- progress of one run

  /** How many steps a run can still take, at most. */
  function StepsLeft(p: Phase): nat {
    match p
    case Claimed => 7
    case Selecting(_) => 6
    case Extracting => 5
    case Searching(_) => 4
    case Storing(_) => 3
    case PersistingUnmet(_) => 3
    case Marking(_, _, _) => 3
    case Sending(_) => 2
    case Completing(_) => 1
    case Releasing => 1
    case Failing(_) => 1
  }

  // ----- the life of a job under the workers

  /** What event `e` does to the row of job `j`. */
  ghost function JobChange(w: World, e: Event, j: nat): seq<QueueLaws.Change>
    requires j in w.jobs
  {
    match e
    case Start(run, job, _, _, staleAfter, at) =>
      if job == j && run !in w.attempts && FencedQueue.Eligible(w.jobs[j], at, staleAfter) then
        [QueueLaws.Claimed(w.jobs[j].status.Processing?, w.jobs[j].attempts + 1, at, staleAfter)]
      else []
    case Work(run, _, at) =>
      if run in w.attempts && w.attempts[run].job == j && FencedQueue.Guard(w.jobs, j, w.attempts[run].token).None? then
        var a := w.attempts[run];
        var ending := Ending(a);
        if ending.Some? then [QueueLaws.Ended(a.token, ending.value, at)] else []
      else []
    case _ => []
  }

  ghost function JobHistory(w: World, es: seq<Event>, j: nat): seq<QueueLaws.Change>
    requires j in w.jobs
    decreases |es|
  {
    if es == [] then [] else JobChange(w, es[0], j) + (if j in Step(w, es[0]).jobs then JobHistory(Step(w, es[0]), es[1..], j) else [])
  }

  ghost predicate OnlyPhaseMoves(w: World, w': World, run: nat)
    requires run in w.attempts
  {
    && w'.jobs == w.jobs && w'.messages == w.messages
    && run in w'.attempts
    && w'.attempts == w.attempts[run := w.attempts[run].(phase := w'.attempts[run].phase)]
    && StepsLeft(w'.attempts[run].phase) < StepsLeft(w.attempts[run].phase)
  }

  predicate Reads(p: Phase) { p.Claimed? || p.Selecting? || p.Extracting? || p.Searching? }

  lemma ReadingShape(w: World, run: nat, input: Input)
    requires run in w.attempts && Reads(w.attempts[run].phase)
    ensures OnlyPhaseMoves(w, Advance(w, run, input), run)
  {
  }

  lemma MarkShape(w: World, run: nat, ok: bool)
    requires run in w.attempts && w.attempts[run].phase.Marking?
    ensures OnlyPhaseMoves(w, MarkChoice(w, run, ok), run)
  {
  }

  lemma StoreShape(w: World, run: nat, customer: string, ok: bool)
    requires run in w.attempts && w.attempts[run].phase.Storing?
    ensures OnlyPhaseMoves(w, StoreResults(w, run, customer, ok), run)
  {
  }

  lemma PersistShape(w: World, run: nat, ok: bool)
    requires run in w.attempts && w.attempts[run].phase.PersistingUnmet?
    ensures OnlyPhaseMoves(w, PersistDemand(w, run, ok), run)
  {
  }

  lemma SendShape(w: World, run: nat, recipient: string, ok: bool)
    requires run in w.attempts && w.attempts[run].phase.Sending?
    ensures OnlyPhaseMoves(w, SendReply(w, run, recipient, ok), run)
  {
  }

  /** Before its last step a run touches no job, and only its own phase. */
  lemma AdvanceShape(w: World, run: nat, input: Input)
    requires run in w.attempts && Ending(w.attempts[run]).None?
    ensures OnlyPhaseMoves(w, Advance(w, run, input), run)
  {
    var a, ok := w.attempts[run], !input.Fails?;
    match a.phase
    case Marking(_, _, _) => MarkShape(w, run, ok);
    case Storing(_) => StoreShape(w, run, Customer(w, a), ok);
    case PersistingUnmet(_) => PersistShape(w, run, ok);
    case Sending(_) => SendShape(w, run, Customer(w, a), ok);
    case _ => ReadingShape(w, run, input);
  }

  lemma WorkFollowsJobLife(w: World, run: nat, input: Input, at: int, j: nat)
    requires j in w.jobs && run in w.attempts
    ensures var w', change := Proceed(w, run, input, at), JobChange(w, Work(run, input, at), j);
            && j in w'.jobs && QueueLaws.Follows(w.jobs[j], change)
            && w'.jobs[j] == QueueLaws.Play(w.jobs[j], change)
  {
    if Ending(w.attempts[run]).None? { AdvanceShape(w, run, input); }
  }

  lemma StepFollowsJobLife(w: World, e: Event, j: nat)
    requires j in w.jobs
    ensures j in Step(w, e).jobs
    ensures QueueLaws.Follows(w.jobs[j], JobChange(w, e, j))
    ensures Step(w, e).jobs[j] == QueueLaws.Play(w.jobs[j], JobChange(w, e, j))
  {
    if e.Work? && e.run in w.attempts { WorkFollowsJobLife(w, e.run, e.input, e.at, j); }
  }

  /** Under any workers a job row lives a life of the fenced queue, to which all its laws apply. */
  lemma {:induction false} JobsFollowLives(w: World, es: seq<Event>, j: nat)
    requires j in w.jobs
    ensures j in Run(w, es).jobs
    ensures QueueLaws.Follows(w.jobs[j], JobHistory(w, es, j))
    ensures Run(w, es).jobs[j] == QueueLaws.Play(w.jobs[j], JobHistory(w, es, j))
    decreases |es|
  {
    if es != [] {
      var w' := Step(w, es[0]);
      StepFollowsJobLife(w, es[0], j);
      JobsFollowLives(w', es[1..], j);
      QueueLaws.PlayAppend(w.jobs[j], JobChange(w, es[0], j), JobHistory(w', es[1..], j));
    }
  }

  /** No job is claimed before its time, nor taken from a run whose claim is not stale. */
  lemma JobsWaitTheirTime(w: World, es: seq<Event>, j: nat, i: nat)
    requires j in w.jobs && i < |JobHistory(w, es, j)| && JobHistory(w, es, j)[i].Claimed?
    ensures var cs := JobHistory(w, es, j);
            && (i > 0 ==> QueueLaws.Timely(cs[i - 1], cs[i]))
            && (i == 0 && w.jobs[j].status.Pending? ==> !cs[0].reclaim && w.jobs[j].availableAt <= cs[0].claimedAt)
  {
    JobsFollowLives(w, es, j);
    QueueLaws.LifeIsTimely(w.jobs[j], JobHistory(w, es, j), i);
  }

  // ----- who is released, and who is completed

  ghost predicate OfWhatsApp(w: World, j: nat) {
    j in w.jobs && w.jobs[j].payload in w.messages && w.messages[w.jobs[j].payload].channel.WhatsApp?
  }

  /** An ending that suits the channel. */
  ghost predicate Fits(c: QueueLaws.Change, whatsApp: bool) {
    c.Ended? ==> if whatsApp then !c.action.Release? else !c.action.Complete?
  }

  lemma JobChangeFits(w: World, e: Event, j: nat)
    requires Invariant(w) && j in w.jobs
    ensures forall c | c in JobChange(w, e, j) :: Fits(c, OfWhatsApp(w, j))
  {
    if e.Work? && e.run in w.attempts {
      var a := w.attempts[e.run];
      assert AttemptAt(w, e.run);
      if a.phase.Completing? && a.phase.replied {
        var i :| SentBy(w, i, a.job, a.token);
        assert SendAt(w, i);
      }
    }
  }

  lemma ChannelStays(w: World, e: Event, j: nat)
    requires Invariant(w) && j in w.jobs
    ensures j in Step(w, e).jobs && (OfWhatsApp(Step(w, e), j) <==> OfWhatsApp(w, j))
  {
    StepKeepsInvariant(w, e);
    assert JobAnswered(w, j) && JobKept(w, Step(w, e), j) && MessageKept(w, Step(w, e), w.jobs[j].payload);
  }

  /**
   Over any run the worker never releases a job of a WhatsApp message, which would bring it back for
   ever, and never completes a job of another channel, which would take it from its own worker.
   */
  lemma {:induction false} JobsEndAsTheirChannel(w: World, es: seq<Event>, j: nat)
    requires Invariant(w) && j in w.jobs
    ensures forall c | c in JobHistory(w, es, j) :: Fits(c, OfWhatsApp(w, j))
    decreases |es|
  {
    if es != [] {
      StepKeepsInvariant(w, es[0]);
      ChannelStays(w, es[0], j);
      JobChangeFits(w, es[0], j);
      JobsEndAsTheirChannel(Step(w, es[0]), es[1..], j);
    }
  }

  lemma {:induction false} NoReleaseCountsNone(cs: seq<QueueLaws.Change>)
    requires forall c | c in cs :: Fits(c, true)
    ensures QueueLaws.Releases(cs) == 0
  {
    if cs != [] {
      assert cs[0] in cs && forall c | c in cs[1..] :: c in cs;
      NoReleaseCountsNone(cs[1..]);
    }
  }

  /** So a WhatsApp message gets at most one reply more than its job was retried or reclaimed. */
  lemma WhatsAppRepliesAreAccountedFor(w: World, es: seq<Event>, j: nat)
    requires Invariant(w) && j in w.jobs && w.jobs[j].status.Pending? && w.jobs[j].attempts == 0 && OfWhatsApp(w, j)
    ensures var cs := JobHistory(w, es, j);
            && QueueLaws.Releases(cs) == 0
            && Acks(Run(w, es).sends, j) <= 1 + QueueLaws.Retries(cs) + QueueLaws.Reclaims(cs)
  {
    DuplicateRepliesAreAccountedFor(w, es, j);
    JobsEndAsTheirChannel(w, es, j);
    NoReleaseCountsNone(JobHistory(w, es, j));
  }

  /** Duplicate replies are paid for: beyond the first, each needs a retry, a release or a stale reclaim. */
  lemma DuplicateRepliesAreAccountedFor(w: World, es: seq<Event>, j: nat)
    requires Invariant(w) && j in w.jobs && w.jobs[j].status.Pending? && w.jobs[j].attempts == 0
    ensures var cs := JobHistory(w, es, j);
            Acks(Run(w, es).sends, j) <= 1 + QueueLaws.Retries(cs) + QueueLaws.Releases(cs) + QueueLaws.Reclaims(cs)
  {
    JobsFollowLives(w, es, j);
    AcksWithinAttempts(w, es, j);
    QueueLaws.LifeLedger(w.jobs[j], JobHistory(w, es, j));
  }

  // ----- recommendation sets

  /** In every reachable state: at most one active set per customer, and selections point into their sets. */
  lemma SetsStayConsistent(w: World, es: seq<Event>, customer: string, id: nat)
    requires Invariant(w) && id in Run(w, es).sets
    ensures |ActiveIds(Run(w, es).sets, customer)| <= 1
    ensures var s := Run(w, es).sets[id];
            s.status.Selected? ==>
              && s.selectedIndex.Some? && 1 <= s.selectedIndex.value <= |s.displayed|
              && s.selectedProduct == Some(s.displayed[s.selectedIndex.value - 1].productId)
  {
    var sets := Run(w, es).sets;
    RunKeepsInvariant(w, es);
    assert SetAt(sets, id);
    var active := ActiveIds(sets, customer);
    if active != {} {
      var x :| x in active;
      forall y | y in active ensures y == x { assert ActiveApart(sets, x, y); }
      assert active == {x};
    }
  }

  /** Storing search results shows the customer each of them as it was found, in a set that replaces the active one. */
  lemma StoringShowsResults(w: World, run: nat, at: int)
    requires Invariant(w) && run in w.attempts && w.attempts[run].phase.Storing?
    ensures var a, w' := w.attempts[run], Step(w, Work(run, Succeeds, at));
            && w.nextSet !in w.sets && w'.sets.Keys == w.sets.Keys + {w.nextSet}
            && var s := w'.sets[w.nextSet];
            && s.customer == Customer(w, a) && s.source == a.message && s.status.Active? && s.selectedIndex == None
            && |s.displayed| == |a.phase.results|
            && (forall i | 0 <= i < |s.displayed| ::
                  && s.displayed[i].productId == a.phase.results[i].productId
                  && s.displayed[i].name == a.phase.results[i].name && s.displayed[i].priceKzt == a.phase.results[i].priceKzt)
            && (forall id | id in w.sets ::
                  w'.sets[id] == if w.sets[id].customer == Customer(w, a) && w.sets[id].status.Active?
                                 then w.sets[id].(status := Superseded) else w.sets[id])
  {
    assert SetIdAt(w, w.nextSet);
  }

  /** An unmet demand is remembered as it was extracted, once per message, and nothing else is touched. */
  lemma UnmetDemandIsRemembered(w: World, run: nat, at: int)
    requires run in w.attempts && w.attempts[run].phase.PersistingUnmet?
    ensures var a, w' := w.attempts[run], Step(w, Work(run, Succeeds, at));
            && w'.unmet.Keys == w.unmet.Keys + {a.message}
            && w'.unmet[a.message] == (if a.message in w.unmet then w.unmet[a.message] else a.phase.request)
            && (forall m | m in w.unmet :: w'.unmet[m] == w.unmet[m])
            && w'.sets == w.sets && w'.jobs == w.jobs && w'.sends == w.sends
  {
  }

  predicate IsOf(e: Event, run: nat) {
    match e
    case Start(r, _, _, _, _, _) => r == run
    case Work(r, _, _) => r == run
    case Crash(r) => r == run
    case Arrive(_, _, _, _) => false
  }

  lemma OtherLeavesMyAttempt(w: World, e: Event, run: nat)
    requires run in w.attempts && !IsOf(e, run)
    ensures run in Step(w, e).attempts && Step(w, e).attempts[run] == w.attempts[run]
  {
    if e.Work? && e.run in w.attempts && Ending(w.attempts[e.run]).None? { AdvanceShape(w, e.run, e.input); }
  }

  lemma {:induction false} OthersLeaveMyAttempt(w: World, es: seq<Event>, run: nat)
    requires run in w.attempts && forall e | e in es :: !IsOf(e, run)
    ensures run in Run(w, es).attempts && Run(w, es).attempts[run] == w.attempts[run]
    decreases |es|
  {
    if es != [] {
      assert es[0] in es && forall e | e in es[1..] :: e in es;
      OtherLeavesMyAttempt(w, es[0], run);
      OthersLeaveMyAttempt(Step(w, es[0]), es[1..], run);
    }
  }

  lemma ActiveSetIsFound(w: World, id: nat, customer: string)
    requires Invariant(w) && id in ActiveIds(w.sets, customer)
    ensures FindActive(w.sets, customer) == Some((id, w.sets[id].displayed))
  {
    var found := FindActive(w.sets, customer);
    assert ActiveApart(w.sets, found.value.0, id);
  }

  /**
   The reply round trip.  A run stores results and, however the workers interleave after that, a
   message of the same customer whose text is the decimal numeral `i` chooses the i-th of them
   when it finds that set active.
   */
  lemma NumeralChoosesDisplayedProduct(w: World, store: nat, es: seq<Event>, reply: nat, i: nat)
    requires Invariant(w) && store in w.attempts && w.attempts[store].phase.Storing?
    requires 1 <= i <= |w.attempts[store].phase.results|
    requires var stored := StoreResults(w, store, Customer(w, w.attempts[store]), true);
             var now := Run(stored, es);
             && reply in now.attempts && now.attempts[reply].message in now.messages
             && Strip(TextOf(now.messages[now.attempts[reply].message])) == Decimal(i)
             && NeedsReply(now.messages[now.attempts[reply].message])
             && w.nextSet in ActiveIds(now.sets, now.messages[now.attempts[reply].message].userId)
    ensures var stored := StoreResults(w, store, Customer(w, w.attempts[store]), true);
            var now := Run(stored, es);
            && AfterLoading(now.messages, now.attempts[reply].message) == Selecting(i)
            && AfterLookup(FindActive(now.sets, Customer(now, now.attempts[reply])), i)
               == Marking(w.nextSet, i, Snapshots(w.attempts[store].phase.results)[i - 1])
  {
    var stored := StoreResults(w, store, Customer(w, w.attempts[store]), true);
    var now := Run(stored, es);
    StoreKeeps(w, store);
    RunKeepsInvariant(stored, es);
    assert SetKept(stored, now, w.nextSet);
    ParseOfDecimal(i);
    ActiveSetIsFound(now, w.nextSet, Customer(now, now.attempts[reply]));
  }

  /** Once a run has resolved a choice, marking it later selects exactly that product, whatever others did. */
  lemma ChoiceIsMarked(w: World, run: nat, es: seq<Event>, at: int)
    requires Invariant(w) && run in w.attempts && w.attempts[run].phase.Marking? && forall e | e in es :: !IsOf(e, run)
    ensures var p := w.attempts[run].phase;
            var now := Step(Run(w, es), Work(run, Succeeds, at));
            && p.setId in w.sets && p.setId in now.sets
            && now.sets[p.setId] == w.sets[p.setId].(status := Selected, selectedIndex := Some(p.choice), selectedProduct := Some(p.chosen.productId))
            && run in now.attempts && now.attempts[run].phase == Sending(Confirmation(p.chosen))
  {
    RunKeepsInvariant(w, es);
    OthersLeaveMyAttempt(w, es, run);
    assert AttemptAt(w, run) && SetKept(w, Run(w, es), w.attempts[run].phase.setId);
  }

  /** No set with an id below `bound` is active for the customer. */
  ghost predicate NoOldActive(sets: Sets, customer: string, bound: nat) {
    forall id | id in ActiveIds(sets, customer) :: id >= bound
  }

  lemma ReadingKeepsSets(w: World, run: nat, input: Input)
    requires run in w.attempts && Reads(w.attempts[run].phase)
    ensures Advance(w, run, input).sets == w.sets
  {
  }

  lemma MarkKeepsOldInactive(w: World, run: nat, ok: bool, customer: string, bound: nat)
    requires run in w.attempts && w.attempts[run].phase.Marking? && NoOldActive(w.sets, customer, bound)
    ensures NoOldActive(MarkChoice(w, run, ok).sets, customer, bound)
  {
    assert forall x | x in ActiveIds(MarkChoice(w, run, ok).sets, customer) :: x in ActiveIds(w.sets, customer);
  }

  lemma StoreKeepsOldInactive(w: World, run: nat, ok: bool, customer: string, bound: nat)
    requires run in w.attempts && w.attempts[run].phase.Storing?
    requires bound <= w.nextSet && NoOldActive(w.sets, customer, bound)
    ensures NoOldActive(StoreResults(w, run, Customer(w, w.attempts[run]), ok).sets, customer, bound)
  {
    assert forall x | x in ActiveIds(StoreResults(w, run, Customer(w, w.attempts[run]), ok).sets, customer) ::
        x in ActiveIds(w.sets, customer) || x == w.nextSet;
  }

  lemma OthersKeepSets(w: World, run: nat, ok: bool)
    requires run in w.attempts
    ensures w.attempts[run].phase.PersistingUnmet? ==> PersistDemand(w, run, ok).sets == w.sets
    ensures w.attempts[run].phase.Sending? ==> SendReply(w, run, Customer(w, w.attempts[run]), ok).sets == w.sets
  {
  }

  lemma AdvanceKeepsOldInactive(w: World, run: nat, input: Input, customer: string, bound: nat)
    requires run in w.attempts && Ending(w.attempts[run]).None?
    requires bound <= w.nextSet && NoOldActive(w.sets, customer, bound)
    ensures NoOldActive(Advance(w, run, input).sets, customer, bound)
  {
    match w.attempts[run].phase
    case Marking(_, _, _) => MarkKeepsOldInactive(w, run, !input.Fails?, customer, bound);
    case Storing(_) => StoreKeepsOldInactive(w, run, !input.Fails?, customer, bound);
    case PersistingUnmet(_) => OthersKeepSets(w, run, !input.Fails?);
    case Sending(_) => OthersKeepSets(w, run, !input.Fails?);
    case _ => ReadingKeepsSets(w, run, input);
  }

  lemma StepKeepsOldInactive(w: World, e: Event, customer: string, bound: nat)
    requires bound <= w.nextSet && NoOldActive(w.sets, customer, bound)
    ensures NoOldActive(Step(w, e).sets, customer, bound)
  {
    if e.Work? && e.run in w.attempts && Ending(w.attempts[e.run]).None? {
      AdvanceKeepsOldInactive(w, e.run, e.input, customer, bound);
    }
  }

  lemma {:induction false} OldSetsStayInactive(w: World, es: seq<Event>, customer: string, bound: nat)
    requires Invariant(w) && bound <= w.nextSet && NoOldActive(w.sets, customer, bound)
    ensures NoOldActive(Run(w, es).sets, customer, bound)
    decreases |es|
  {
    if es != [] {
      StepKeepsInvariant(w, es[0]);
      StepKeepsOldInactive(w, es[0], customer, bound);
      OldSetsStayInactive(Step(w, es[0]), es[1..], customer, bound);
    }
  }

  /**
   A committed choice is not resolved again.  After it, every active set of that customer was
   stored later; so a retry that finds no set stored since goes to the request extractor.
   */
  lemma ChoiceIsNotResolvedAgain(w: World, run: nat, es: seq<Event>)
    requires Invariant(w) && run in w.attempts && w.attempts[run].phase.Marking?
    requires w.attempts[run].phase.setId in ActiveIds(w.sets, Customer(w, w.attempts[run]))
    ensures var customer := Customer(w, w.attempts[run]);
            var now := Run(MarkChoice(w, run, true), es);
            && NoOldActive(now.sets, customer, w.nextSet)
            && (now.nextSet == w.nextSet ==> forall index :: AfterLookup(FindActive(now.sets, customer), index) == Extracting)
  {
    var customer, p := Customer(w, w.attempts[run]), w.attempts[run].phase;
    var marked := MarkChoice(w, run, true);
    MarkKeeps(w, run);
    SelectionUsesUpTheActiveSet(w.sets, p.setId, p.choice, Some(p.chosen.productId));
    OldSetsStayInactive(marked, es, customer, w.nextSet);
    RunKeepsInvariant(marked, es);
    var now := Run(marked, es);
    if now.nextSet == w.nextSet {
      forall id ensures id !in ActiveIds(now.sets, customer) { assert SetIdAt(now, id); }
      assert ActiveIds(now.sets, customer) == {};
    }
  }

  /**
   Marking does not look at the old status: a choice resolved before another run stored a newer set
   still turns its own set, superseded meanwhile, into a selected one, and the newer set stays active.
   */
  lemma SupersededSetsCanBeSelected(w: World, chooser: nat, storer: nat, at: int)
    requires Invariant(w) && chooser in w.attempts && storer in w.attempts
    requires w.attempts[chooser].phase.Marking? && w.attempts[storer].phase.Storing?
    requires Customer(w, w.attempts[chooser]) == Customer(w, w.attempts[storer])
    requires w.attempts[chooser].phase.setId in ActiveIds(w.sets, Customer(w, w.attempts[chooser]))
    ensures var customer, older := Customer(w, w.attempts[chooser]), w.attempts[chooser].phase.setId;
            var between := Step(w, Work(storer, Succeeds, at));
            var after := Step(between, Work(chooser, Succeeds, at));
            && older in between.sets && between.sets[older].status.Superseded?
            && older in after.sets && after.sets[older].status.Selected?
            && ActiveIds(after.sets, customer) == {w.nextSet}
  {
    var customer, p := Customer(w, w.attempts[chooser]), w.attempts[chooser].phase;
    var between := Step(w, Work(storer, Succeeds, at));
    assert SetIdAt(w, w.nextSet) && SetIdAt(w, p.setId);
    StoreKeepsSets(w.sets, w.nextSet, customer, Snapshots(w.attempts[storer].phase.results), w.attempts[storer].message);
    assert between.sets == StoreSet(w.sets, w.nextSet, customer, Snapshots(w.attempts[storer].phase.results), w.attempts[storer].message);
    assert between.attempts[chooser] == w.attempts[chooser];
    var after := Step(between, Work(chooser, Succeeds, at));
    assert after.sets == MarkSelected(between.sets, p.setId, p.choice, Some(p.chosen.productId));
    assert ActiveIds(after.sets, customer) == ActiveIds(between.sets, customer) - {p.setId};
  }

  // ----- the worker's use of the response builder

  /** The response builder's own search is dead code here: no search result can influence the worker. */
  lemma BuilderNeverSearches(input: Input, search: Request -> seq<SearchResult>, search': Request -> seq<SearchResult>)
    ensures AfterExtraction(input, search) == AfterExtraction(input, search')
    ensures AfterExtraction(input, search) != Sending(NoResults)
  {
  }

  /** Every step of a run brings it closer to its end, whatever the outside answers. */
  lemma RunsEnd(w: World, run: nat, input: Input, at: int)
    requires run in w.attempts
    ensures var w' := Proceed(w, run, input, at);
            run in w'.attempts ==> StepsLeft(w'.attempts[run].phase) < StepsLeft(w.attempts[run].phase)
  {
    if Ending(w.attempts[run]).None? { AdvanceShape(w, run, input); }
  }
}
