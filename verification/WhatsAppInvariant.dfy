/** What every step of the WhatsApp worker keeps. */
module WhatsAppInvariant {
  import opened Ingestion
  import opened Recommendations
  import opened WhatsAppWorker
  import FencedQueue

  lemma OldSendsKept(w: World, w': World)
    requires Invariant(w) && Grows(w, w') && w'.sends == w.sends
    ensures forall i :: SendAt(w', i)
    ensures forall i, k :: SendsApart(w', i, k)
    ensures forall j | j in w.jobs :: Answered(w, j) ==> Answered(w', j)
  {
    forall i: nat ensures SendAt(w', i) {
      assert SendAt(w, i);
      if i < |w.sends| { SendGrows(w, w', i); }
    }
    forall i: nat, k: nat ensures SendsApart(w', i, k) { assert SendsApart(w, i, k); }
  }

  /** A step of run `run` that only moves its phase and the recommendation state. */
  lemma MoveKeeps(w: World, w': World, run: nat)
    requires Invariant(w) && Grows(w, w') && run in w.attempts
    requires w'.messages == w.messages && w'.jobs == w.jobs && w'.sends == w.sends
    requires run in w'.attempts && w'.attempts == w.attempts[run := w.attempts[run].(phase := w'.attempts[run].phase)]
    requires AttemptAt(w', run) && SetsOk(w'.sets) && (forall id :: SetIdAt(w', id))
    ensures Invariant(w')
  {
    OldSendsKept(w, w');
    forall r ensures AttemptAt(w', r) {
      assert AttemptAt(w, r);
      if r != run && r in w.attempts {
        assert forall i | |w.sends| <= i :: !SentBy(w', i, w.attempts[r].job, w.attempts[r].token);
        AttemptGrows(w, w', r);
      }
    }
    forall r, s ensures ClaimsApart(w', r, s) { assert ClaimsApart(w, r, s); }
    forall j ensures JobAnswered(w', j) { assert JobAnswered(w, j); }
  }

  lemma GrowsGoto(w: World, run: nat, phase: Phase)
    requires run in w.attempts
    ensures Grows(w, Goto(w, run, phase))
  {
    var w' := Goto(w, run, phase);
    forall m ensures MessageKept(w, w', m) {}
    forall j ensures JobKept(w, w', j) {}
    forall id ensures SetKept(w, w', id) {}
    forall m ensures UnmetKept(w, w', m) {}
  }

  /** A pure change of phase is fine whenever the new phase is. */
  lemma GotoKeeps(w: World, run: nat, phase: Phase)
    requires Invariant(w) && run in w.attempts
    requires w.attempts[run].message in w.messages && PhaseAt(w, w.attempts[run].(phase := phase))
    ensures Invariant(Goto(w, run, phase))
  {
    var w', a := Goto(w, run, phase), w.attempts[run];
    var a' := a.(phase := phase);
    GrowsGoto(w, run, phase);
    assert AttemptAt(w, run);
    forall i ensures SentBy(w', i, a.job, a.token) == SentBy(w, i, a.job, a.token) {}
    SamePhase(w, w', a');
    forall id ensures SetIdAt(w', id) { assert SetIdAt(w, id); }
    MoveKeeps(w, w', run);
  }

  /** PhaseAt does not look at the other attempts. */
  lemma SamePhase(w: World, w': World, a: Attempt)
    requires a.message in w.messages && PhaseAt(w, a)
    requires w'.messages == w.messages && w'.jobs == w.jobs && w'.sets == w.sets && w'.unmet == w.unmet && w'.sends == w.sends
    ensures PhaseAt(w', a)
  {
    forall i ensures SentBy(w', i, a.job, a.token) == SentBy(w, i, a.job, a.token) {}
    if a.phase == Completing(true) {
      var i :| SentBy(w, i, a.job, a.token);
      assert SentBy(w', i, a.job, a.token);
    }
    forall i | NotSent(w, a) ensures !SentBy(w', i, a.job, a.token) { assert !SentBy(w, i, a.job, a.token); }
    if a.phase.Sending? { BackedSame(w, w', a.message, a.phase.reply); }
  }

  lemma BackedSame(w: World, w': World, m: nat, reply: Reply)
    requires w'.messages == w.messages && w'.sets == w.sets && w'.unmet == w.unmet
    ensures Backed(w', m, reply) == Backed(w, m, reply)
  {
  }

  lemma LoadingKeeps(w: World, run: nat)
    requires Invariant(w) && run in w.attempts && w.attempts[run].phase.Claimed?
    ensures Invariant(Goto(w, run, AfterLoading(w.messages, w.attempts[run].message)))
  {
    assert AttemptAt(w, run);
    GotoKeeps(w, run, AfterLoading(w.messages, w.attempts[run].message));
  }

  lemma LookupKeeps(w: World, run: nat, index: nat)
    requires Invariant(w) && run in w.attempts && w.attempts[run].phase.Selecting?
    ensures Invariant(Goto(w, run, AfterLookup(FindActive(w.sets, Customer(w, w.attempts[run])), index)))
  {
    assert AttemptAt(w, run);
    var found := FindActive(w.sets, Customer(w, w.attempts[run]));
    GotoKeeps(w, run, AfterLookup(found, index));
  }

  lemma ExtractionKeeps(w: World, run: nat, input: Input)
    requires Invariant(w) && run in w.attempts && w.attempts[run].phase.Extracting?
    ensures Invariant(Goto(w, run, AfterExtraction(input, _ => [])))
  {
    assert AttemptAt(w, run);
    GotoKeeps(w, run, AfterExtraction(input, _ => []));
  }

  lemma SearchKeeps(w: World, run: nat, input: Input, request: Request)
    requires Invariant(w) && run in w.attempts && w.attempts[run].phase.Searching?
    ensures Invariant(Goto(w, run, AfterSearch(input, request)))
  {
    assert AttemptAt(w, run);
    GotoKeeps(w, run, AfterSearch(input, request));
  }

  lemma FailureKeeps(w: World, run: nat, error: string)
    requires Invariant(w) && run in w.attempts && !w.attempts[run].phase.Completing? && !w.attempts[run].phase.Releasing?
    ensures Invariant(Goto(w, run, Failing(error)))
  {
    assert AttemptAt(w, run);
    GotoKeeps(w, run, Failing(error));
  }

  /** Run `run` changes the recommendation state and goes on to send a reply backed by it. */
  lemma StateStepKeeps(w: World, w': World, run: nat, reply: Reply)
    requires Invariant(w) && Grows(w, w') && run in w.attempts
    requires w'.messages == w.messages && w'.jobs == w.jobs && w'.sends == w.sends
    requires w'.attempts == w.attempts[run := w.attempts[run].(phase := Sending(reply))]
    requires w.attempts[run].phase.Marking? || w.attempts[run].phase.Storing? || w.attempts[run].phase.PersistingUnmet?
    requires Backed(w', w.attempts[run].message, reply)
    requires SetsOk(w'.sets) && (forall id :: SetIdAt(w', id))
    ensures Invariant(w')
  {
    var a := w.attempts[run];
    assert AttemptAt(w, run);
    forall i: nat ensures !SentBy(w', i, a.job, a.token) { assert !SentBy(w, i, a.job, a.token); }
    assert AttemptAt(w', run);
    MoveKeeps(w, w', run);
  }

  lemma MarkKeeps(w: World, run: nat)
    requires Invariant(w) && run in w.attempts && w.attempts[run].phase.Marking?
    ensures Invariant(MarkChoice(w, run, true)) && Grows(w, MarkChoice(w, run, true))
  {
    var w', p := MarkChoice(w, run, true), w.attempts[run].phase;
    assert AttemptAt(w, run);
    MarkKeepsSets(w.sets, p.setId, p.choice);
    forall m ensures MessageKept(w, w', m) {}
    forall j ensures JobKept(w, w', j) {}
    forall id ensures SetKept(w, w', id) {}
    forall m ensures UnmetKept(w, w', m) {}
    forall id ensures SetIdAt(w', id) { assert SetIdAt(w, id); }
    assert HoldsSelection(w'.sets, p.setId, Customer(w, w.attempts[run]), p.chosen);
    StateStepKeeps(w, w', run, Confirmation(p.chosen));
  }

  lemma StoreKeeps(w: World, run: nat)
    requires Invariant(w) && run in w.attempts && w.attempts[run].phase.Storing?
    ensures var w' := StoreResults(w, run, Customer(w, w.attempts[run]), true); Invariant(w') && Grows(w, w')
  {
    var a := w.attempts[run];
    var customer, results := Customer(w, a), a.phase.results;
    var w' := StoreResults(w, run, customer, true);
    assert AttemptAt(w, run) && SetIdAt(w, w.nextSet);
    StoreKeepsSets(w.sets, w.nextSet, customer, Snapshots(results), a.message);
    forall m ensures MessageKept(w, w', m) {}
    forall j ensures JobKept(w, w', j) {}
    forall id ensures SetKept(w, w', id) {}
    forall m ensures UnmetKept(w, w', m) {}
    forall id ensures SetIdAt(w', id) { assert SetIdAt(w, id); }
    assert HoldsSnapshots(w'.sets, w.nextSet, customer, a.message, results);
    StateStepKeeps(w, w', run, RecommendationList(results));
  }

  lemma PersistKeeps(w: World, run: nat)
    requires Invariant(w) && run in w.attempts && w.attempts[run].phase.PersistingUnmet?
    ensures Invariant(PersistDemand(w, run, true)) && Grows(w, PersistDemand(w, run, true))
  {
    var w', a := PersistDemand(w, run, true), w.attempts[run];
    assert AttemptAt(w, run);
    forall m ensures MessageKept(w, w', m) {}
    forall j ensures JobKept(w, w', j) {}
    forall id ensures SetKept(w, w', id) {}
    forall m ensures UnmetKept(w, w', m) {}
    forall id ensures SetIdAt(w', id) { assert SetIdAt(w, id); }
    StateStepKeeps(w, w', run, NothingFound(a.phase.request.language));
  }

  // ----- sending

  lemma SendGrowsWorld(w: World, run: nat)
    requires run in w.attempts && w.attempts[run].phase.Sending?
    ensures Grows(w, SendReply(w, run, Customer(w, w.attempts[run]), true))
  {
    var w' := SendReply(w, run, Customer(w, w.attempts[run]), true);
    forall m ensures MessageKept(w, w', m) {}
    forall j ensures JobKept(w, w', j) {}
    forall id ensures SetKept(w, w', id) {}
    forall m ensures UnmetKept(w, w', m) {}
  }

  /** The claim that sends was unused, so the new acknowledgement stands apart from all others. */
  lemma SendKeeps(w: World, run: nat)
    requires Invariant(w) && run in w.attempts && w.attempts[run].phase.Sending?
    ensures Invariant(SendReply(w, run, Customer(w, w.attempts[run]), true))
  {
    var a := w.attempts[run];
    var w' := SendReply(w, run, Customer(w, a), true);
    var n := |w.sends|;
    assert AttemptAt(w, run);
    SendGrowsWorld(w, run);
    assert w'.sends[n] == Sent(a.job, a.token, w.messages[a.message].userId, a.phase.reply) && SentBy(w', n, a.job, a.token);
    forall i: nat ensures SendAt(w', i) {
      assert SendAt(w, i);
      if i < n { SendGrows(w, w', i); } else if i == n { BackedGrows(w, w', a.message, a.phase.reply); }
    }
    forall i: nat, k: nat ensures SendsApart(w', i, k) {
      assert SendsApart(w, i, k) && !SentBy(w, i, a.job, a.token);
    }
    forall r ensures AttemptAt(w', r) {
      assert AttemptAt(w, r) && ClaimsApart(w, r, run);
      if r != run && r in w.attempts {
        assert forall i | n <= i :: !SentBy(w', i, w.attempts[r].job, w.attempts[r].token);
        AttemptGrows(w, w', r);
      }
    }
    forall r, s ensures ClaimsApart(w', r, s) { assert ClaimsApart(w, r, s); }
    forall j ensures JobAnswered(w', j) {
      assert JobAnswered(w, j);
      if Answered(w, j) { AnsweredGrows(w, w', j); }
    }
    forall id ensures SetIdAt(w', id) { assert SetIdAt(w, id); }
  }

  lemma AnsweredGrows(w: World, w': World, j: nat)
    requires Answered(w, j) && w.sends <= w'.sends
    ensures Answered(w', j)
  {
    var i :| 0 <= i < |w.sends| && w.sends[i].job == j;
    assert w'.sends[i] == w.sends[i];
  }

  // ----- steps of the queue

  /** A step that changes one job row, or adds one, and removes at most run `gone`. */
  lemma JobStepKeeps(w: World, w': World, job: nat)
    requires Invariant(w) && Grows(w, w')
    requires w'.sets == w.sets && w'.nextSet == w.nextSet && w'.sends == w.sends
    requires forall j | j in w'.jobs && j != job :: j in w.jobs && w'.jobs[j] == w.jobs[j]
    requires JobAnswered(w', job)
    requires forall r | r in w'.attempts && r in w.attempts :: w'.attempts[r] == w.attempts[r]
    requires forall r | r in w'.attempts && r !in w.attempts :: AttemptAt(w', r)
    requires forall r, s :: ClaimsApart(w', r, s)
    ensures Invariant(w')
  {
    OldSendsKept(w, w');
    forall r ensures AttemptAt(w', r) {
      assert AttemptAt(w, r);
      if r in w.attempts && r in w'.attempts {
        assert forall i | |w.sends| <= i :: !SentBy(w', i, w.attempts[r].job, w.attempts[r].token);
        AttemptGrows(w, w', r);
      }
    }
    forall j ensures JobAnswered(w', j) {
      assert JobAnswered(w, j);
      if j != job && j in w.jobs { assert JobKept(w, w', j) && MessageKept(w, w', w.jobs[j].payload); }
    }
    forall id ensures SetIdAt(w', id) { assert SetIdAt(w, id); }
  }

  lemma GrowsByJob(w: World, w': World)
    requires forall m :: MessageKept(w, w', m)
    requires forall j :: JobKept(w, w', j)
    requires w'.sets == w.sets && w'.unmet == w.unmet && w'.sends == w.sends && w'.nextSet == w.nextSet
    ensures Grows(w, w')
  {
    forall id ensures SetKept(w, w', id) {}
    forall m ensures UnmetKept(w, w', m) {}
  }

  lemma FinishGrows(w: World, run: nat, action: FencedQueue.Action, at: int)
    requires run in w.attempts
    ensures Grows(w, Finish(w, run, action, at))
  {
    var w' := Finish(w, run, action, at);
    forall m ensures MessageKept(w, w', m) {}
    forall j ensures JobKept(w, w', j) {}
    GrowsByJob(w, w');
  }

  predicate Fits(phase: Phase, action: FencedQueue.Action) {
    match action
    case Complete => phase.Completing?
    case _ => true
  }

  lemma FinishKeeps(w: World, run: nat, action: FencedQueue.Action, at: int)
    requires Invariant(w) && run in w.attempts && Fits(w.attempts[run].phase, action)
    ensures Invariant(Finish(w, run, action, at))
  {
    var w', a := Finish(w, run, action, at), w.attempts[run];
    FinishGrows(w, run, action, at);
    assert AttemptAt(w, run) && JobAnswered(w, a.job);
    if action.Complete? && a.phase.replied {
      var i: nat :| SentBy(w, i, a.job, a.token);
      assert w'.sends[i].job == a.job;
      assert Answered(w', a.job);
    } else if Answered(w, a.job) {
      AnsweredGrows(w, w', a.job);
    }
    forall r, s ensures ClaimsApart(w', r, s) { assert ClaimsApart(w, r, s); }
    JobStepKeeps(w, w', a.job);
  }

  /** A new claim gets a token nobody has used on that job. */
  lemma StartKeeps(w: World, run: nat, job: nat, maxAttempts: int, retryDelay: int, staleAfter: int, at: int)
    requires Invariant(w)
    ensures var w' := Step(w, Start(run, job, maxAttempts, retryDelay, staleAfter, at)); Invariant(w') && Grows(w, w')
  {
    var w' := Step(w, Start(run, job, maxAttempts, retryDelay, staleAfter, at));
    forall m ensures MessageKept(w, w', m) {}
    forall j ensures JobKept(w, w', j) {}
    GrowsByJob(w, w');
    if w' != w {
      assert JobAnswered(w, job);
      var a := w'.attempts[run];
      forall i: nat ensures !SentBy(w', i, a.job, a.token) { assert SendAt(w, i); }
      forall r, s ensures ClaimsApart(w', r, s) { assert ClaimsApart(w, r, s) && AttemptAt(w, r) && AttemptAt(w, s); }
      JobStepKeeps(w, w', job);
    }
  }

  lemma ArriveKeeps(w: World, m: nat, job: nat, content: Message, at: int)
    requires Invariant(w)
    ensures var w' := Step(w, Arrive(m, job, content, at)); Invariant(w') && Grows(w, w')
  {
    var w' := Step(w, Arrive(m, job, content, at));
    forall x ensures MessageKept(w, w', x) {}
    forall j ensures JobKept(w, w', j) {}
    GrowsByJob(w, w');
    if w' != w {
      forall r, s ensures ClaimsApart(w', r, s) { assert ClaimsApart(w, r, s); }
      JobStepKeeps(w, w', job);
    }
  }

  lemma CrashKeeps(w: World, run: nat)
    requires Invariant(w)
    ensures Invariant(Step(w, Crash(run))) && Grows(w, Step(w, Crash(run)))
  {
    var w' := Step(w, Crash(run));
    forall m ensures MessageKept(w, w', m) {}
    forall j ensures JobKept(w, w', j) {}
    GrowsByJob(w, w');
    forall r, s ensures ClaimsApart(w', r, s) { assert ClaimsApart(w, r, s); }
    forall j ensures JobAnswered(w', j) {
      assert JobAnswered(w, j);
      if Answered(w, j) { AnsweredGrows(w, w', j); }
    }
    JobStepKeeps(w, w', 0);
  }

  // ----- all steps

  lemma AdvanceKeeps(w: World, run: nat, input: Input)
    requires Invariant(w) && run in w.attempts && Ending(w.attempts[run]).None?
    ensures Invariant(Advance(w, run, input)) && Grows(w, Advance(w, run, input))
  {
    var a := w.attempts[run];
    match a.phase
    case Claimed => LoadingKeeps(w, run); GrowsGoto(w, run, AfterLoading(w.messages, a.message));
    case Selecting(index) =>
      if input.Fails? { FailureKeeps(w, run, STATE_ACCESS_FAILED); GrowsGoto(w, run, Failing(STATE_ACCESS_FAILED)); }
      else { LookupKeeps(w, run, index); GrowsGoto(w, run, AfterLookup(FindActive(w.sets, Customer(w, a)), index)); }
    case Marking(_, _, _) =>
      if input.Fails? { FailureKeeps(w, run, STATE_ACCESS_FAILED); GrowsGoto(w, run, Failing(STATE_ACCESS_FAILED)); }
      else { MarkKeeps(w, run); }
    case Extracting => ExtractionKeeps(w, run, input); GrowsGoto(w, run, AfterExtraction(input, _ => []));
    case Searching(request) => SearchKeeps(w, run, input, request); GrowsGoto(w, run, AfterSearch(input, request));
    case Storing(_) =>
      if input.Fails? { FailureKeeps(w, run, STORAGE_FAILED); GrowsGoto(w, run, Failing(STORAGE_FAILED)); }
      else { StoreKeeps(w, run); }
    case PersistingUnmet(_) =>
      if input.Fails? { FailureKeeps(w, run, UNMET_STORAGE_FAILED); GrowsGoto(w, run, Failing(UNMET_STORAGE_FAILED)); }
      else { PersistKeeps(w, run); }
    case Sending(_) =>
      if input.Fails? { FailureKeeps(w, run, SEND_FAILED); GrowsGoto(w, run, Failing(SEND_FAILED)); }
      else { SendKeeps(w, run); SendGrowsWorld(w, run); }
  }

  lemma ProceedKeeps(w: World, run: nat, input: Input, at: int)
    requires Invariant(w) && run in w.attempts
    ensures Invariant(Proceed(w, run, input, at)) && Grows(w, Proceed(w, run, input, at))
  {
    var ending := Ending(w.attempts[run]);
    if ending.Some? {
      FinishKeeps(w, run, ending.value, at);
      FinishGrows(w, run, ending.value, at);
    } else {
      AdvanceKeeps(w, run, input);
    }
  }

  lemma StepKeepsInvariant(w: World, e: Event)
    requires Invariant(w)
    ensures Invariant(Step(w, e)) && Grows(w, Step(w, e))
  {
    match e
    case Arrive(m, job, content, at) => ArriveKeeps(w, m, job, content, at);
    case Start(run, job, maxAttempts, retryDelay, staleAfter, at) =>
      StartKeeps(w, run, job, maxAttempts, retryDelay, staleAfter, at);
    case Work(run, input, at) =>
      if run in w.attempts { ProceedKeeps(w, run, input, at); } else { CrashKeeps(w, run); assert w.attempts - {run} == w.attempts; }
    case Crash(run) => CrashKeeps(w, run);
  }

  lemma {:induction false} RunKeepsInvariant(w: World, es: seq<Event>)
    requires Invariant(w)
    ensures Invariant(Run(w, es)) && Grows(w, Run(w, es))
    decreases |es|
  {
    if es == [] {
      GrowsReflexive(w);
    } else {
      StepKeepsInvariant(w, es[0]);
      RunKeepsInvariant(Step(w, es[0]), es[1..]);
      GrowsTransitive(w, Step(w, es[0]), Run(w, es));
    }
  }

  lemma GrowsReflexive(w: World)
    ensures Grows(w, w)
  {
    forall m ensures MessageKept(w, w, m) {}
    forall j ensures JobKept(w, w, j) {}
    GrowsByJob(w, w);
  }

  lemma EmptyWorldOk()
    ensures Invariant(EmptyWorld())
  {
    var w := EmptyWorld();
    forall r ensures AttemptAt(w, r) {}
    forall r, s ensures ClaimsApart(w, r, s) {}
    forall i: nat ensures SendAt(w, i) {}
    forall i: nat, k: nat ensures SendsApart(w, i, k) {}
    forall j ensures JobAnswered(w, j) {}
    forall id ensures SetIdAt(w, id) {}
    forall id ensures SetAt(w.sets, id) {}
    forall a, b ensures ActiveApart(w.sets, a, b) {}
  }
}
