/** One call of the worker as it runs, its outside answers given as arguments. */
module WhatsAppFacade {
  import opened Common
  import opened Documents
  import opened Ingestion
  import opened Recommendations
  import opened WhatsAppWorker
  import FencedQueue
  import TaskTable

  type Ticket = TaskTable.Ticket<nat>

  /** What the extractor, the search, the database and the messaging service answer. */
  datatype Answers = Answers(
    lookup: bool, mark: bool, extraction: Option<Request>, search: Option<seq<SearchResult>>,
    store: bool, persist: bool, send: bool)

  datatype EchoResult = NoJob | SentReply | NoResponse | Released | RetryScheduled | FailedJob | Raised(why: FencedQueue.Refusal)

  function Answer(ok: bool): Input { if ok then Succeeds else Fails }

  /** What the reported outcome says about the claim (job, token) and the acknowledged replies. */
  ghost predicate Reports(result: EchoResult, w: World, w': World, job: nat, token: nat) {
    && (result.Raised? || job in w'.jobs)
    && match result
       case NoJob => false
       case SentReply =>
         && w'.jobs[job].status.Completed?
         && exists reply :: Sends(w, w', job, token, reply)
       case NoResponse => w'.jobs[job].status.Completed? && w'.sends == w.sends
       case Released => w'.jobs[job].status.Pending? && w'.sends == w.sends
       case RetryScheduled => w'.jobs[job].status.Pending? && w'.sends == w.sends
       case FailedJob => w'.jobs[job].status.Failed? && w'.sends == w.sends
       case Raised(why) => FencedQueue.Guard(w.jobs, job, token) == Some(why) && w'.jobs == w.jobs
  }

  // ----- what a call owes, answer by answer

  /** The search branch: a list that was stored, a notice whose demand was recorded, or a failure. */
  ghost function SearchReply(request: Request, answers: Answers): Result<Reply, string> {
    match answers.search
    case None => Err(SEARCH_FAILED)
    case Some(results) =>
      if results != [] then (if answers.store then Ok(RecommendationList(results)) else Err(STORAGE_FAILED))
      else if answers.persist then Ok(NothingFound(request.language)) else Err(UNMET_STORAGE_FAILED)
  }

  /** What each extracted intent is answered with. */
  ghost function RequestReply(answers: Answers): Result<Reply, string> {
    match answers.extraction
    case None => Err(EXTRACTION_FAILED)
    case Some(Request(Handoff, _, _)) => Ok(HandoffNotice)
    case Some(Request(Unknown, _, _)) => Ok(UnknownNotice)
    case Some(Request(ProductSearch, Some(field), _)) => Ok(ClarificationOf(field))
    case Some(request) => SearchReply(request, answers)
  }

  /** A number chooses among the displayed products. */
  ghost function ChoiceReply(displayed: seq<Displayed>, i: nat, answers: Answers): Result<Reply, string> {
    if !(1 <= i <= |displayed|) then Ok(OutOfRange(|displayed|))
    else if answers.mark then Ok(Confirmation(displayed[i - 1]))
    else Err(STATE_ACCESS_FAILED)
  }

  /** A numeral chooses from the customer's active set, if there is one; everything else is a request. */
  ghost function TextReply(sets: Sets, customer: string, trimmed: string, answers: Answers): Result<Reply, string> {
    if !IsNumericSelection(trimmed) then RequestReply(answers)
    else if !answers.lookup then Err(STATE_ACCESS_FAILED)
    else
      match FindActive(sets, customer)
      case None => RequestReply(answers)
      case Some(active) => ChoiceReply(active.1, ParseInt(trimmed), answers)
  }

  /** A call that owes a reply sends it and completes the job, or fails the attempt with the reason. */
  ghost predicate Replies(result: EchoResult, w: World, w': World, c: Call, reply: Result<Reply, string>, answers: Answers, now: int) {
    match reply
    case Err(error) => FailsAttempt(result, w, w', c, error, now)
    case Ok(reply) =>
      if answers.send then result == SentReply && Sends(w, w', c.job, c.token, reply)
      else FailsAttempt(result, w, w', c, SEND_FAILED, now)
  }

  /**
   What becomes of a claimed message: one of another channel is released, due at once, to the worker
   of that channel; one that is gone or not a text is completed in silence; a text is answered.
   */
  ghost predicate Serves(result: EchoResult, w: World, w': World, c: Call, answers: Answers, now: int) {
    if c.message !in w.messages then result == NoResponse
    else
      var m := w.messages[c.message];
      if !m.channel.WhatsApp? then result == Released && c.job in w'.jobs && w'.jobs[c.job].availableAt == now
      else if !m.kind.Text? then result == NoResponse
      else Replies(result, w, w', c, TextReply(w.sets, m.userId, Strip(TextOf(m)), answers), answers, now)
  }

  /** The attempt failed: rescheduled below the cap of the call, and over from the cap on. */
  ghost predicate FailsAttempt(result: EchoResult, w: World, w': World, c: Call, error: string, now: int) {
    && w'.sends == w.sends && c.job in w'.jobs && w'.jobs[c.job].lastError == Some(error)
    && if c.token < c.maxAttempts then result == RetryScheduled && w'.jobs[c.job].availableAt == now + c.retryDelay
       else result == FailedJob
  }

  ghost predicate IsCurrent(w: World, c: Call) { FencedQueue.Guard(w.jobs, c.job, c.token).None? }

  ghost predicate Sends(w: World, w': World, job: nat, token: nat, reply: Reply) {
    |w'.sends| == |w.sends| + 1 && w.sends <= w'.sends
    && w'.sends[|w.sends|].job == job && w'.sends[|w.sends|].token == token && w'.sends[|w.sends|].reply == reply
  }

  /** The arguments of a call and the claim it holds. */
  datatype Call = Call(job: nat, token: nat, message: nat, maxAttempts: int, retryDelay: int) {
    ghost predicate Runs(w: World, run: nat) {
      run in w.attempts && w.attempts[run] == Attempt(job, token, message, maxAttempts, retryDelay, w.attempts[run].phase)
    }
  }

  /** The events are steps of run `run`. */
  ghost predicate Mine(es: seq<Event>, run: nat) {
    forall i | 0 <= i < |es| :: es[i].Work? && es[i].run == run
  }

  lemma RunTwo(w: World, es: seq<Event>)
    requires |es| == 2
    ensures Run(w, es) == Step(Step(w, es[0]), es[1])
  {
    assert es[1..][0] == es[1] && es[1..][1..] == [];
    assert Run(Step(Step(w, es[0]), es[1]), []) == Step(Step(w, es[0]), es[1]);
  }

  /** One step before others, when it touches neither jobs nor replies. */
  lemma StepFirst(w: World, e: Event, es: seq<Event>, w': World, result: EchoResult, job: nat, token: nat)
    requires Run(Step(w, e), es) == w' && Reports(result, Step(w, e), w', job, token)
    requires Step(w, e).jobs == w.jobs && Step(w, e).sends == w.sends
    ensures Run(w, [e] + es) == w' && Reports(result, w, w', job, token)
    ensures forall run | Mine(es, run) && e.Work? && e.run == run :: Mine([e] + es, run)
  {
    assert ([e] + es)[1..] == es;
    if result.SentReply? {
      var reply :| Sends(Step(w, e), w', job, token, reply);
      assert Sends(w, w', job, token, reply);
    }
  }

  lemma RunCons(w: World, e: Event, es: seq<Event>)
    ensures Run(w, [e] + es) == Run(Step(w, e), es)
  {
    assert ([e] + es)[1..] == es;
  }

  /** `job` is the one a claim takes: the first eligible job in queue order. */
  ghost predicate Chosen(jobs: map<nat, Row>, job: nat, skipped: set<nat>, now: int, staleAfter: int) {
    job in jobs && FencedQueue.FirstInOrder([job], jobs, FencedQueue.EligibleIds(jobs, skipped, now, staleAfter), 1)
    && FencedQueue.ClaimsFirst([job], jobs, skipped, now, staleAfter, 1)
  }

  /** No job is waiting past its time, and none in progress is stale, but for those others have locked. */
  ghost predicate NothingRipe(jobs: map<nat, Row>, skipped: set<nat>, now: int, staleAfter: int) {
    forall j | j in jobs && j !in skipped :: !FencedQueue.RipeAt(jobs, j, now, staleAfter)
  }

  /** `w1` is `w` after run `run` has claimed call `c`. */
  ghost predicate Claims(w: World, w1: World, run: nat, c: Call) {
    && c.job in w.jobs && c.token == w.jobs[c.job].attempts + 1 && c.message == w.jobs[c.job].payload
    && c.Runs(w1, run) && w1.attempts[run].phase == Claimed
    && FencedQueue.Guard(w1.jobs, c.job, c.token).None?
  }

  lemma ClaimIsStart(w: World, run: nat, c: Call, skipped: set<nat>, staleAfter: int, now: int)
    requires run !in w.attempts && c.job in FencedQueue.EligibleIds(w.jobs, skipped, now, staleAfter)
    requires c.token == w.jobs[c.job].attempts + 1 && c.message == w.jobs[c.job].payload
    ensures var w1 := Step(w, Start(run, c.job, c.maxAttempts, c.retryDelay, staleAfter, now));
            && Claims(w, w1, run, c)
            && w1 == w.(jobs := FencedQueue.ClaimAll(w.jobs, {c.job}, now), attempts := w1.attempts)
  {
  }

  /** A whole call: the events of run `run`, its claim first, lead from `w` to `w'` as reported. */
  ghost predicate Processed(
    w: World, run: nat, result: EchoResult, es: seq<Event>, w': World, answers: Answers, skipped: set<nat>, now: int, staleAfter: int) {
    && es != [] && es[0].Start? && es[0].run == run && Mine(es[1..], run) && Run(w, es) == w'
    && Chosen(w.jobs, es[0].job, skipped, now, staleAfter)
    && Reports(result, Step(w, es[0]), w', es[0].job, w.jobs[es[0].job].attempts + 1) && !result.Raised?
    && Serves(result, Step(w, es[0]), w', CallOf(w, es[0]), answers, now)
  }

  /** The call a claim leads to. */
  function CallOf(w: World, e: Event): Call
    requires e.Start? && e.job in w.jobs
  {
    Call(e.job, w.jobs[e.job].attempts + 1, w.jobs[e.job].payload, e.maxAttempts, e.retryDelay)
  }

  lemma ClaimThenProcess(
    w: World, run: nat, c: Call, result: EchoResult, es: seq<Event>, w': World, answers: Answers, skipped: set<nat>, now: int, staleAfter: int)
    requires var e := Start(run, c.job, c.maxAttempts, c.retryDelay, staleAfter, now);
             && Claims(w, Step(w, e), run, c) && Chosen(w.jobs, c.job, skipped, now, staleAfter)
             && Mine(es, run) && Run(Step(w, e), es) == w' && Reports(result, Step(w, e), w', c.job, c.token)
             && Serves(result, Step(w, e), w', c, answers, now)
    ensures Processed(w, run, result, [Start(run, c.job, c.maxAttempts, c.retryDelay, staleAfter, now)] + es, w', answers, skipped, now, staleAfter)
  {
    var e := Start(run, c.job, c.maxAttempts, c.retryDelay, staleAfter, now);
    RunCons(w, e, es);
    assert ([e] + es)[1..] == es;
  }

  lemma SameStart(w: World, w1: World, w': World, result: EchoResult, job: nat, token: nat)
    requires Reports(result, w1, w', job, token) && w1.jobs == w.jobs && w1.sends == w.sends
    ensures Reports(result, w, w', job, token)
  {
    if result.SentReply? {
      var reply :| Sends(w1, w', job, token, reply);
      assert Sends(w, w', job, token, reply);
    }
  }

  class Worker {
    const queue: TaskTable.TaskTable<nat>
    const recommendations: RecommendationStore
    var messages: map<nat, Message>
    var unmet: map<nat, Request>
    var sends: seq<Sent>

    ghost predicate Valid()
      reads this, queue, recommendations
    {
      queue.Valid() && recommendations.Valid()
    }

    /** The tables, together with the positions of the runs in flight. */
    ghost function View(attempts: map<nat, Attempt>): World
      reads this, queue, queue.rows.Values, recommendations
    {
      World(messages, queue.View(), recommendations.sets, recommendations.nextId, unmet, attempts, sends)
    }

    constructor ()
      ensures Valid() && View(map[]) == EmptyWorld()
    {
      queue := new TaskTable.TaskTable();
      recommendations := new RecommendationStore();
      messages, unmet, sends := map[], map[], [];
    }

    /** The closing transaction of a call. */
    method Finalise(ghost w: World, ghost run: nat, job: nat, token: nat, action: FencedQueue.Action, now: int)
      returns (refusal: Option<FencedQueue.Refusal>)
      requires Valid() && View(w.attempts) == w && run in w.attempts
      requires w.attempts[run].job == job && w.attempts[run].token == token && Ending(w.attempts[run]) == Some(action)
      modifies queue.rows.Values
      ensures Valid()
      ensures View(w.attempts - {run}) == Step(w, Work(run, Succeeds, now))
      ensures refusal == FencedQueue.Guard(w.jobs, job, token)
      ensures unchanged(this) && unchanged(recommendations) && queue.View() == FencedQueue.Act(w.jobs, job, token, action, now)
    {
      refusal := queue.Transition(job, token, action, now);
    }

    /** _fail_job */
    method FailJob(ghost w: World, ghost run: nat, c: Call, error: string, now: int)
      returns (result: EchoResult)
      requires Valid() && View(w.attempts) == w && c.Runs(w, run) && w.attempts[run].phase == Failing(error)
      modifies queue.rows.Values
      ensures Valid() && View(w.attempts - {run}) == Step(w, Work(run, Succeeds, now))
      ensures Reports(result, w, View(w.attempts - {run}), c.job, c.token)
      ensures IsCurrent(w, c) ==> FailsAttempt(result, w, View(w.attempts - {run}), c, error, now)
    {
      var refusal := Finalise(w, run, c.job, c.token, FencedQueue.Action.Fail(error, c.maxAttempts, c.retryDelay), now);
      if refusal.Some? {
        return Raised(refusal.value);
      }
      result := if queue.rows[c.job].status == FencedQueue.Pending then RetryScheduled else FailedJob;
      assert queue.View()[c.job] == queue.rows[c.job].Value();
    }

    /** A failed outside call or transaction, and the closing of the claim after it. */
    method FailAfter(ghost w: World, ghost run: nat, c: Call, ghost e: Event, error: string, now: int)
      returns (result: EchoResult, ghost es: seq<Event>, ghost w': World)
      requires Valid() && View(w.attempts) == w && c.Runs(w, run)
      requires Step(w, e) == Goto(w, run, Failing(error)) && e.Work? && e.run == run
      modifies queue.rows.Values
      ensures Valid() && View(w'.attempts) == w' == Run(w, es) && Mine(es, run)
      ensures Reports(result, w, w', c.job, c.token)
      ensures IsCurrent(w, c) ==> FailsAttempt(result, w, w', c, error, now)
    {
      ghost var w1 := Goto(w, run, Failing(error));
      result := FailJob(w1, run, c, error, now);
      es := [e, Work(run, Succeeds, now)];
      w' := Step(w1, es[1]);
      RunTwo(w, es);
    }

    /** Send the reply and close the claim accordingly: the common end of both branches of the worker. */
    method SendAndFinish(
      ghost w: World, ghost run: nat, c: Call, recipient: string, reply: Reply, acknowledged: bool, now: int)
      returns (result: EchoResult, ghost es: seq<Event>, ghost w': World)
      requires Valid() && View(w.attempts) == w && c.Runs(w, run)
      requires w.attempts[run].phase == Sending(reply) && recipient == Customer(w, w.attempts[run])
      modifies this`sends, queue.rows.Values
      ensures Valid() && View(w'.attempts) == w' == Run(w, es) && Mine(es, run)
      ensures Reports(result, w, w', c.job, c.token)
      ensures IsCurrent(w, c) ==>
        if acknowledged then result == SentReply && Sends(w, w', c.job, c.token, reply) else FailsAttempt(result, w, w', c, SEND_FAILED, now)
    {
      if !acknowledged {
        result, es, w' := FailAfter(w, run, c, Work(run, Fails, now), SEND_FAILED, now);
      } else {
        es := [Work(run, Succeeds, now), Work(run, Succeeds, now)];
        ghost var w1 := Step(w, es[0]);
        sends := sends + [Sent(c.job, c.token, recipient, reply)];
        assert View(w1.attempts) == w1;
        var refusal := Finalise(w1, run, c.job, c.token, FencedQueue.Action.Complete, now);
        w' := Step(w1, es[1]);
        RunTwo(w, es);
        assert Sends(w, w', c.job, c.token, reply);
        result := if refusal.Some? then Raised(refusal.value) else SentReply;
      }
    }

    /** The send after a step that committed what the reply promises. */
    method SendAfter(
      ghost w: World, ghost e: Event, ghost w1: World, ghost run: nat, c: Call, recipient: string, reply: Reply, answers: Answers, now: int)
      returns (result: EchoResult, ghost es: seq<Event>, ghost w': World)
      requires Valid() && View(w1.attempts) == w1 == Step(w, e) && e.Work? && e.run == run && c.Runs(w1, run)
      requires w1.jobs == w.jobs && w1.sends == w.sends
      requires w1.attempts[run].phase == Sending(reply) && recipient == Customer(w1, w1.attempts[run])
      modifies this`sends, queue.rows.Values
      ensures Valid() && View(w'.attempts) == w' == Run(w, es) && Mine(es, run)
      ensures Reports(result, w, w', c.job, c.token)
      ensures IsCurrent(w, c) ==> Replies(result, w, w', c, Ok(reply), answers, now)
    {
      result, es, w' := SendAndFinish(w1, run, c, recipient, reply, answers.send, now);
      StepFirst(w, e, es, w', result, c.job, c.token);
      es := [e] + es;
    }

    /** Mark the chosen product as selected, then confirm it. */
    method ConfirmChoice(
      ghost w: World, ghost run: nat, c: Call, recipient: string, setId: nat, choice: nat, chosen: Displayed,
      answers: Answers, now: int)
      returns (result: EchoResult, ghost es: seq<Event>, ghost w': World)
      requires Valid() && View(w.attempts) == w && c.Runs(w, run)
      requires w.attempts[run].phase == Marking(setId, choice, chosen) && recipient == Customer(w, w.attempts[run])
      requires setId in w.sets && 1 <= choice <= |w.sets[setId].displayed| && chosen == w.sets[setId].displayed[choice - 1]
      modifies this`sends, recommendations, queue.rows.Values
      ensures Valid() && View(w'.attempts) == w' == Run(w, es) && Mine(es, run)
      ensures Reports(result, w, w', c.job, c.token)
      ensures IsCurrent(w, c) ==>
        Replies(result, w, w', c, if answers.mark then Ok(Confirmation(chosen)) else Err(STATE_ACCESS_FAILED), answers, now)
    {
      ghost var e := Work(run, Answer(answers.mark), now);
      ghost var w1 := MarkChoice(w, run, answers.mark);
      assert Step(w, e) == w1;
      if !answers.mark {
        result, es, w' := FailAfter(w, run, c, e, STATE_ACCESS_FAILED, now);
        return;
      }
      recommendations.MarkRecommendationSelected(setId, choice, Some(chosen.productId));
      MarkKeepsSets(w.sets, setId, choice);
      assert View(w1.attempts) == w1;
      result, es, w' := SendAfter(w, e, w1, run, c, recipient, Confirmation(chosen), answers, now);
    }

    /** A choice from the displayed products, confirmed or out of range. */
    method AnswerChoice(
      ghost w: World, ghost run: nat, c: Call, recipient: string, setId: nat, index: nat, displayed: seq<Displayed>,
      answers: Answers, now: int)
      returns (result: EchoResult, ghost es: seq<Event>, ghost w': World)
      requires Valid() && View(w.attempts) == w && c.Runs(w, run) && recipient == Customer(w, w.attempts[run])
      requires setId in w.sets && w.sets[setId].displayed == displayed
      requires w.attempts[run].phase == AfterLookup(Some((setId, displayed)), index)
      modifies this`sends, recommendations, queue.rows.Values
      ensures Valid() && View(w'.attempts) == w' == Run(w, es) && Mine(es, run)
      ensures Reports(result, w, w', c.job, c.token)
      ensures IsCurrent(w, c) ==> Replies(result, w, w', c, ChoiceReply(displayed, index, answers), answers, now)
    {
      if !(1 <= index <= |displayed|) {
        result, es, w' := SendAndFinish(w, run, c, recipient, OutOfRange(|displayed|), answers.send, now);
      } else {
        result, es, w' := ConfirmChoice(w, run, c, recipient, setId, index, displayed[index - 1], answers, now);
      }
    }

    /** The customer's active set decides whether a number is a choice. */
    method ChooseFromActive(ghost w: World, ghost run: nat, c: Call, recipient: string, index: nat, answers: Answers, now: int)
      returns (result: Option<EchoResult>, ghost es: seq<Event>, ghost w': World)
      requires Valid() && View(w.attempts) == w && c.Runs(w, run) && recipient == Customer(w, w.attempts[run])
      requires w.attempts[run].phase == Selecting(index)
      modifies this`sends, recommendations, queue.rows.Values
      ensures Valid() && View(w'.attempts) == w' == Run(w, es) && Mine(es, run)
      ensures result.None? <==> FindActive(w.sets, recipient).None?
      ensures result.Some? ==> Reports(result.value, w, w', c.job, c.token)
      ensures result.Some? && IsCurrent(w, c) ==>
        Replies(result.value, w, w', c, ChoiceReply(FindActive(w.sets, recipient).value.1, index, answers), answers, now)
      ensures result.None? ==> w' == Goto(w, run, Extracting) && unchanged(this) && unchanged(recommendations) && unchanged(queue.rows.Values)
    {
      ghost var e := Work(run, Succeeds, now);
      var active := recommendations.LoadActive(recipient);
      assert active == FindActive(w.sets, recipient);
      ghost var w1 := Goto(w, run, AfterLookup(active, index));
      assert Step(w, e) == w1;
      assert View(w1.attempts) == w1;
      if active.None? {
        return None, [e], w1;
      }
      var answered: EchoResult;
      answered, es, w' := AnswerChoice(w1, run, c, recipient, active.value.0, index, active.value.1, answers, now);
      StepFirst(w, e, es, w', answered, c.job, c.token);
      result, es := Some(answered), [e] + es;
    }

    /** _handle_selection; without a result the message is left to the extractor. */
    method HandleSelection(
      ghost w: World, ghost run: nat, c: Call, recipient: string, trimmed: string, answers: Answers, now: int)
      returns (result: Option<EchoResult>, ghost es: seq<Event>, ghost w': World)
      requires Valid() && View(w.attempts) == w && c.Runs(w, run) && recipient == Customer(w, w.attempts[run])
      requires w.attempts[run].phase == if IsNumericSelection(trimmed) then Selecting(ParseInt(trimmed)) else Extracting
      modifies this`sends, recommendations, queue.rows.Values
      ensures Valid() && View(w'.attempts) == w' == Run(w, es) && Mine(es, run)
      ensures result.Some? ==> Reports(result.value, w, w', c.job, c.token)
      ensures result.Some? && IsCurrent(w, c) ==>
        Replies(result.value, w, w', c, TextReply(w.sets, recipient, trimmed, answers), answers, now)
      ensures result.None? ==> TextReply(w.sets, recipient, trimmed, answers) == RequestReply(answers)
      ensures result.None? ==> w' == Goto(w, run, Extracting) && unchanged(this) && unchanged(recommendations) && unchanged(queue.rows.Values)
    {
      if !IsNumericSelection(trimmed) {
        return None, [], w;
      }
      var index := ParseInt(trimmed);
      if !answers.lookup {
        var failed: EchoResult;
        failed, es, w' := FailAfter(w, run, c, Work(run, Fails, now), STATE_ACCESS_FAILED, now);
        return Some(failed), es, w';
      }
      result, es, w' := ChooseFromActive(w, run, c, recipient, index, answers, now);
    }

    /** The search branch: store what was found, or remember that nothing was, and answer. */
    method Recommend(ghost w: World, ghost run: nat, c: Call, recipient: string, request: Request, answers: Answers, now: int)
      returns (result: EchoResult, ghost es: seq<Event>, ghost w': World)
      requires Valid() && View(w.attempts) == w && c.Runs(w, run) && recipient == Customer(w, w.attempts[run])
      requires w.attempts[run].phase == Searching(request)
      modifies this, recommendations, queue.rows.Values
      ensures Valid() && View(w'.attempts) == w' == Run(w, es) && Mine(es, run)
      ensures Reports(result, w, w', c.job, c.token)
      ensures IsCurrent(w, c) ==> Replies(result, w, w', c, SearchReply(request, answers), answers, now)
    {
      if answers.search.None? {
        result, es, w' := FailAfter(w, run, c, Work(run, Fails, now), SEARCH_FAILED, now);
      } else {
        result, es, w' := OfferResults(w, run, c, recipient, request, answers.search.value, answers, now);
      }
    }

    /** What the search found decides how the customer is answered. */
    method OfferResults(
      ghost w: World, ghost run: nat, c: Call, recipient: string, request: Request, results: seq<SearchResult>, answers: Answers, now: int)
      returns (result: EchoResult, ghost es: seq<Event>, ghost w': World)
      requires Valid() && View(w.attempts) == w && c.Runs(w, run) && recipient == Customer(w, w.attempts[run])
      requires w.attempts[run].phase == Searching(request) && answers.search == Some(results)
      modifies this, recommendations, queue.rows.Values
      ensures Valid() && View(w'.attempts) == w' == Run(w, es) && Mine(es, run)
      ensures Reports(result, w, w', c.job, c.token)
      ensures IsCurrent(w, c) ==> Replies(result, w, w', c, SearchReply(request, answers), answers, now)
    {
      ghost var e := Work(run, Found(results), now);
      ghost var w1 := Step(w, e);
      assert View(w1.attempts) == w1;
      if results != [] {
        result, es, w' := StoreAndSend(w1, run, c, recipient, results, answers, now);
      } else {
        result, es, w' := PersistAndSend(w1, run, c, recipient, request, answers, now);
      }
      StepFirst(w, e, es, w', result, c.job, c.token);
      es := [e] + es;
    }

    method StoreAndSend(
      ghost w: World, ghost run: nat, c: Call, recipient: string, results: seq<SearchResult>, answers: Answers, now: int)
      returns (result: EchoResult, ghost es: seq<Event>, ghost w': World)
      requires Valid() && View(w.attempts) == w && c.Runs(w, run) && recipient == Customer(w, w.attempts[run])
      requires w.attempts[run].phase == Storing(results)
      modifies this`sends, recommendations, queue.rows.Values
      ensures Valid() && View(w'.attempts) == w' == Run(w, es) && Mine(es, run)
      ensures Reports(result, w, w', c.job, c.token)
      ensures IsCurrent(w, c) ==>
        Replies(result, w, w', c, if answers.store then Ok(RecommendationList(results)) else Err(STORAGE_FAILED), answers, now)
    {
      ghost var e := Work(run, Answer(answers.store), now);
      ghost var w1 := StoreResults(w, run, recipient, answers.store);
      assert Step(w, e) == w1;
      if !answers.store {
        result, es, w' := FailAfter(w, run, c, e, STORAGE_FAILED, now);
        return;
      }
      var _ := recommendations.StoreRecommendationSet(recipient, Snapshots(results), c.message);
      assert View(w1.attempts) == w1;
      result, es, w' := SendAfter(w, e, w1, run, c, recipient, RecommendationList(results), answers, now);
    }

    /** One unmet demand per message. */
    method RecordDemand(message: nat, request: Request)
      modifies this`unmet
      ensures unmet == if message in old(unmet) then old(unmet) else old(unmet)[message := request]
    {
      if message !in unmet {
        unmet := unmet[message := request];
      }
    }

    method PersistAndSend(
      ghost w: World, ghost run: nat, c: Call, recipient: string, request: Request, answers: Answers, now: int)
      returns (result: EchoResult, ghost es: seq<Event>, ghost w': World)
      requires Valid() && View(w.attempts) == w && c.Runs(w, run) && recipient == Customer(w, w.attempts[run])
      requires w.attempts[run].phase == PersistingUnmet(request)
      modifies this`unmet, this`sends, queue.rows.Values
      ensures Valid() && View(w'.attempts) == w' == Run(w, es) && Mine(es, run)
      ensures Reports(result, w, w', c.job, c.token)
      ensures IsCurrent(w, c) ==>
        Replies(result, w, w', c, if answers.persist then Ok(NothingFound(request.language)) else Err(UNMET_STORAGE_FAILED), answers, now)
    {
      ghost var e := Work(run, Answer(answers.persist), now);
      ghost var w1 := PersistDemand(w, run, answers.persist);
      assert Step(w, e) == w1;
      if !answers.persist {
        result, es, w' := FailAfter(w, run, c, e, UNMET_STORAGE_FAILED, now);
        return;
      }
      RecordDemand(c.message, request);
      assert View(w1.attempts) == w1;
      result, es, w' := SendAfter(w, e, w1, run, c, recipient, NothingFound(request.language), answers, now);
    }

    /** A text message of a WhatsApp customer: a numeric choice, or a request to extract and serve. */
    method AnswerText(ghost w: World, ghost run: nat, c: Call, m: Message, answers: Answers, now: int)
      returns (result: EchoResult, ghost es: seq<Event>, ghost w': World)
      requires Valid() && View(w.attempts) == w && c.Runs(w, run) && m.userId == Customer(w, w.attempts[run])
      requires w.attempts[run].phase ==
               if IsNumericSelection(Strip(TextOf(m))) then Selecting(ParseInt(Strip(TextOf(m)))) else Extracting
      modifies this, recommendations, queue.rows.Values
      ensures Valid() && View(w'.attempts) == w' == Run(w, es) && Mine(es, run)
      ensures Reports(result, w, w', c.job, c.token)
      ensures IsCurrent(w, c) ==>
        Replies(result, w, w', c, TextReply(w.sets, m.userId, Strip(TextOf(m)), answers), answers, now)
    {
      var selection, es1, w1 := HandleSelection(w, run, c, m.userId, Strip(TextOf(m)), answers, now);
      if selection.Some? {
        return selection.value, es1, w1;
      }
      result, es, w' := AnswerRequest(w1, run, c, m.userId, answers, now);
      RunAppend(w, es1, es);
      SameStart(w, w1, w', result, c.job, c.token);
      es := es1 + es;
    }

    method AnswerRequest(ghost w: World, ghost run: nat, c: Call, recipient: string, answers: Answers, now: int)
      returns (result: EchoResult, ghost es: seq<Event>, ghost w': World)
      requires Valid() && View(w.attempts) == w && c.Runs(w, run) && recipient == Customer(w, w.attempts[run])
      requires w.attempts[run].phase == Extracting
      modifies this, recommendations, queue.rows.Values
      ensures Valid() && View(w'.attempts) == w' == Run(w, es) && Mine(es, run)
      ensures Reports(result, w, w', c.job, c.token)
      ensures IsCurrent(w, c) ==> Replies(result, w, w', c, RequestReply(answers), answers, now)
    {
      if answers.extraction.None? {
        result, es, w' := FailAfter(w, run, c, Work(run, Fails, now), EXTRACTION_FAILED, now);
      } else {
        result, es, w' := ServeRequest(w, run, c, recipient, answers.extraction.value, answers, now);
      }
    }

    /** A request that was understood: searched for, or answered at once. */
    method ServeRequest(ghost w: World, ghost run: nat, c: Call, recipient: string, request: Request, answers: Answers, now: int)
      returns (result: EchoResult, ghost es: seq<Event>, ghost w': World)
      requires Valid() && View(w.attempts) == w && c.Runs(w, run) && recipient == Customer(w, w.attempts[run])
      requires w.attempts[run].phase == Extracting && answers.extraction == Some(request)
      modifies this, recommendations, queue.rows.Values
      ensures Valid() && View(w'.attempts) == w' == Run(w, es) && Mine(es, run)
      ensures Reports(result, w, w', c.job, c.token)
      ensures IsCurrent(w, c) ==> Replies(result, w, w', c, RequestReply(answers), answers, now)
    {
      ghost var e := Work(run, Understood(request), now);
      ghost var w1 := Goto(w, run, AfterExtraction(Understood(request), _ => []));
      assert Step(w, e) == w1;
      if request.intent == ProductSearch && request.missingField.None? {
        result, es, w' := Recommend(w1, run, c, recipient, request, answers, now);
      } else {
        result, es, w' := SendAndFinish(w1, run, c, recipient, BuildResponseText(request, _ => []), answers.send, now);
      }
      StepFirst(w, e, es, w', result, c.job, c.token);
      es := [e] + es;
    }

    /** A message that gets no reply: complete it, or release it to the worker of its channel. */
    method CloseSilently(ghost w: World, ghost run: nat, c: Call, release: bool, now: int)
      returns (result: EchoResult, ghost es: seq<Event>, ghost w': World)
      requires Valid() && View(w.attempts) == w && c.Runs(w, run)
      requires w.attempts[run].phase == if release then Releasing else Completing(false)
      modifies queue.rows.Values
      ensures Valid() && View(w'.attempts) == w' == Run(w, es) && Mine(es, run)
      ensures Reports(result, w, w', c.job, c.token)
      ensures IsCurrent(w, c) ==> result == if release then Released else NoResponse
      ensures IsCurrent(w, c) && release ==> w'.jobs[c.job].availableAt == now
    {
      var refusal := Finalise(w, run, c.job, c.token, if release then FencedQueue.Action.Release else FencedQueue.Action.Complete, now);
      es, w' := [Work(run, Succeeds, now)], Step(w, Work(run, Succeeds, now));
      RunOne(w, es[0]);
      result := if refusal.Some? then Raised(refusal.value) else if release then Released else NoResponse;
    }

    /** From the claim on: load the message and take the branch it asks for. */
    method ProcessClaimed(ghost w: World, ghost run: nat, c: Call, answers: Answers, now: int)
      returns (result: EchoResult, ghost es: seq<Event>, ghost w': World)
      requires Valid() && View(w.attempts) == w && c.Runs(w, run) && w.attempts[run].phase == Claimed
      modifies this, recommendations, queue.rows.Values
      ensures Valid() && View(w'.attempts) == w' == Run(w, es) && Mine(es, run)
      ensures Reports(result, w, w', c.job, c.token)
      ensures IsCurrent(w, c) ==> Serves(result, w, w', c, answers, now)
    {
      ghost var e := Work(run, Succeeds, now);
      ghost var w1 := Goto(w, run, AfterLoading(w.messages, c.message));
      assert Step(w, e) == w1;
      if c.message !in messages {
        result, es, w' := CloseSilently(w1, run, c, false, now);
      } else {
        var m := messages[c.message];
        if m.channel != WhatsApp {
          result, es, w' := CloseSilently(w1, run, c, true, now);
        } else if m.kind != Text {
          result, es, w' := CloseSilently(w1, run, c, false, now);
        } else {
          result, es, w' := AnswerText(w1, run, c, m, answers, now);
        }
      }
      StepFirst(w, e, es, w', result, c.job, c.token);
      es := [e] + es;
    }

    /** claim_one_message_processing_job: the first eligible job in queue order, if there is one. */
    method ClaimOne(
      ghost w: World, ghost run: nat, maxAttempts: int, retryDelay: int, staleAfter: int, lockedByOthers: set<nat>, now: int)
      returns (r: Option<Call>, ghost w1: World)
      requires Valid() && View(w.attempts) == w && run !in w.attempts
      modifies queue.rows.Values
      ensures Valid() && View(w1.attempts) == w1
      ensures r.None? <==> FencedQueue.EligibleIds(w.jobs, lockedByOthers, now, staleAfter) == {}
      ensures r.None? ==> w1 == w && NothingRipe(w.jobs, lockedByOthers, now, staleAfter)
      ensures r.Some? ==> Chosen(w.jobs, r.value.job, lockedByOthers, now, staleAfter) && Claims(w, w1, run, r.value)
      ensures r.Some? ==> w1 == Step(w, Start(run, r.value.job, maxAttempts, retryDelay, staleAfter, now))
    {
      var claimed := queue.ClaimTasks(1, staleAfter, now, lockedByOthers);
      var tickets := claimed.value;
      if tickets == [] {
        return None, w;
      }
      var c := Call(tickets[0].id, tickets[0].token, tickets[0].payload, maxAttempts, retryDelay);
      assert TaskTable.Ids(tickets) == [c.job];
      assert c.job in SeqSet([c.job]);
      assert SeqSet([c.job]) == {c.job};
      ClaimIsStart(w, run, c, lockedByOthers, staleAfter, now);
      r, w1 := Some(c), Step(w, Start(run, c.job, maxAttempts, retryDelay, staleAfter, now));
    }

    /** process_one_whatsapp_echo_job: a run of the state machine, reporting what became of its claim. */
    method ProcessOne(
      ghost w: World, ghost run: nat, answers: Answers, maxAttempts: int, retryDelay: int, staleAfter: int,
      lockedByOthers: set<nat>, now: int)
      returns (result: EchoResult, ghost es: seq<Event>, ghost w': World)
      requires Valid() && View(w.attempts) == w && run !in w.attempts
      modifies this, recommendations, queue.rows.Values
      ensures Valid() && View(w'.attempts) == w'
      ensures result.NoJob? <==> FencedQueue.EligibleIds(w.jobs, lockedByOthers, now, staleAfter) == {}
      ensures result.NoJob? ==> w' == w && NothingRipe(w.jobs, lockedByOthers, now, staleAfter)
      ensures !result.NoJob? ==> Processed(w, run, result, es, w', answers, lockedByOthers, now, staleAfter)
    {
      ghost var w1;
      var claim: Option<Call>;
      claim, w1 := ClaimOne(w, run, maxAttempts, retryDelay, staleAfter, lockedByOthers, now);
      if claim.None? {
        return NoJob, [], w;
      }
      var c := claim.value;
      result, es, w' := ProcessClaimed(w1, run, c, answers, now);
      ClaimThenProcess(w, run, c, result, es, w', answers, lockedByOthers, now, staleAfter);
      es := [Start(run, c.job, maxAttempts, retryDelay, staleAfter, now)] + es;
    }
  }
}
