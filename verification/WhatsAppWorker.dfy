/**
 The WhatsApp message worker as a state machine.  A run of the worker claims one job and then takes
 one step per transaction or outside call; runs of any number of workers interleave, any of them may
 stop for good after any step, and a stale job may be claimed again while its old run goes on.
 */
module WhatsAppWorker {
  import opened Common
  import opened Documents
  import opened Ingestion
  import opened Recommendations
  import FencedQueue

  type Row = FencedQueue.Row<nat>

  const STATE_ACCESS_FAILED := "Recommendation state access failed."
  const EXTRACTION_FAILED := "Customer request extraction failed."
  const SEARCH_FAILED := "Product search failed."
  const STORAGE_FAILED := "Recommendation state storage failed."
  const UNMET_STORAGE_FAILED := "Unmet demand storage failed."
  const SEND_FAILED := "WhatsApp send failed."

  datatype Intent = ProductSearch | Handoff | Unknown

  datatype Request = Request(intent: Intent, missingField: Option<string>, language: string)

  /** What a reply says; its wording is left out. */
  datatype Reply =
    | RecommendationList(results: seq<SearchResult>)
    | NothingFound(language: string)
    | Confirmation(chosen: Displayed)
    | OutOfRange(count: nat)
    | ClarificationOf(field: string)
    | HandoffNotice
    | UnknownNotice
    | NoResults

  datatype Phase =
    | Claimed
    | Selecting(index: nat)
    | Marking(setId: nat, choice: nat, chosen: Displayed)
    | Extracting
    | Searching(request: Request)
    | Storing(results: seq<SearchResult>)
    | PersistingUnmet(request: Request)
    | Sending(reply: Reply)
    | Completing(replied: bool)
    | Releasing
    | Failing(error: string)

  /** One call of the worker: its claim, and how far it has come. */
  datatype Attempt = Attempt(job: nat, token: nat, message: nat, maxAttempts: int, retryDelay: int, phase: Phase)

  /** An acknowledged outbound message. */
  datatype Sent = Sent(job: nat, token: nat, recipient: string, reply: Reply)

  datatype World = World(
    messages: map<nat, Message>,
    jobs: map<nat, Row>,
    sets: Sets,
    nextSet: nat,
    unmet: map<nat, Request>,
    attempts: map<nat, Attempt>,
    sends: seq<Sent>)

  function EmptyWorld(): World { World(map[], map[], map[], 0, map[], map[], []) }

  /** How an outside call or a transaction ends. */
  datatype Input = Fails | Succeeds | Understood(request: Request) | Found(results: seq<SearchResult>)

  datatype Event =
    | Arrive(message: nat, job: nat, content: Message, at: int)
    | Start(run: nat, job: nat, maxAttempts: int, retryDelay: int, staleAfter: int, at: int)
    | Work(run: nat, input: Input, at: int)
    | Crash(run: nat)

  // ----- the branches of the worker

  predicate NeedsReply(m: Message) { m.channel.WhatsApp? && m.kind.Text? }

  function TextOf(m: Message): string { if m.text.Some? then m.text.value else "" }

  function AfterLoading(messages: map<nat, Message>, m: nat): Phase {
    if m !in messages then Completing(false)
    else if !messages[m].channel.WhatsApp? then Releasing
    else if !messages[m].kind.Text? then Completing(false)
    else if IsNumericSelection(Strip(TextOf(messages[m]))) then Selecting(ParseInt(Strip(TextOf(messages[m]))))
    else Extracting
  }

  /** What a numeric reply leads to, given the active set found for the customer. */
  function AfterLookup(active: Option<(nat, seq<Displayed>)>, index: nat): Phase {
    if active.None? then Extracting
    else if !(1 <= index <= |active.value.1|) then Sending(OutOfRange(|active.value.1|))
    else Marking(active.value.0, index, active.value.1[index - 1])
  }

  /** load_active_recommendation: some active set of the customer, if there is one. */
  ghost function FindActive(sets: Sets, customer: string): (r: Option<(nat, seq<Displayed>)>)
    ensures r.None? <==> ActiveIds(sets, customer) == {}
    ensures r.Some? ==> r.value.0 in ActiveIds(sets, customer) && r.value.1 == sets[r.value.0].displayed
  {
    var active := ActiveIds(sets, customer);
    if active == {} then None
    else
      var id :| id in active;
      Some((id, sets[id].displayed))
  }

  function BuildResponseText(request: Request, search: Request -> seq<SearchResult>): Reply {
    if request.intent.Handoff? then HandoffNotice
    else if request.intent.Unknown? then UnknownNotice
    else if request.missingField.Some? then ClarificationOf(request.missingField.value)
    else if search(request) == [] then NoResults
    else RecommendationList(search(request))
  }

  function AfterExtraction(input: Input, search: Request -> seq<SearchResult>): Phase {
    if !input.Understood? then Failing(EXTRACTION_FAILED)
    else if input.request.intent.ProductSearch? && input.request.missingField.None? then Searching(input.request)
    else Sending(BuildResponseText(input.request, search))
  }

  function AfterSearch(input: Input, request: Request): Phase {
    if !input.Found? then Failing(SEARCH_FAILED)
    else if input.results != [] then Storing(input.results)
    else PersistingUnmet(request)
  }

  // ----- the steps

  function Goto(w: World, run: nat, phase: Phase): World
    requires run in w.attempts
  {
    w.(attempts := w.attempts[run := w.attempts[run].(phase := phase)])
  }

  function Finish(w: World, run: nat, action: FencedQueue.Action, at: int): World
    requires run in w.attempts
  {
    w.(jobs := FencedQueue.Act(w.jobs, w.attempts[run].job, w.attempts[run].token, action, at),
       attempts := w.attempts - {run})
  }

  function MarkChoice(w: World, run: nat, ok: bool): World
    requires run in w.attempts && w.attempts[run].phase.Marking?
  {
    var p := w.attempts[run].phase;
    if !ok then Goto(w, run, Failing(STATE_ACCESS_FAILED))
    else Goto(w.(sets := MarkSelected(w.sets, p.setId, p.choice, Some(p.chosen.productId))), run, Sending(Confirmation(p.chosen)))
  }

  function StoreResults(w: World, run: nat, customer: string, ok: bool): World
    requires run in w.attempts && w.attempts[run].phase.Storing?
  {
    var a := w.attempts[run];
    if !ok then Goto(w, run, Failing(STORAGE_FAILED))
    else
      Goto(w.(sets := StoreSet(w.sets, w.nextSet, customer, Snapshots(a.phase.results), a.message), nextSet := w.nextSet + 1),
           run, Sending(RecommendationList(a.phase.results)))
  }

  function PersistDemand(w: World, run: nat, ok: bool): World
    requires run in w.attempts && w.attempts[run].phase.PersistingUnmet?
  {
    var a := w.attempts[run];
    if !ok then Goto(w, run, Failing(UNMET_STORAGE_FAILED))
    else
      Goto(if a.message in w.unmet then w else w.(unmet := w.unmet[a.message := a.phase.request]),
           run, Sending(NothingFound(a.phase.request.language)))
  }

  function SendReply(w: World, run: nat, recipient: string, acknowledged: bool): World
    requires run in w.attempts && w.attempts[run].phase.Sending?
  {
    var a := w.attempts[run];
    if !acknowledged then Goto(w, run, Failing(SEND_FAILED))
    else Goto(w.(sends := w.sends + [Sent(a.job, a.token, recipient, a.phase.reply)]), run, Completing(true))
  }

  function Customer(w: World, a: Attempt): string {
    if a.message in w.messages then w.messages[a.message].userId else ""
  }

  /** How a run that is about to end finalises its claim. */
  function Ending(a: Attempt): Option<FencedQueue.Action> {
    match a.phase
    case Completing(_) => Some(FencedQueue.Action.Complete)
    case Releasing => Some(FencedQueue.Action.Release)
    case Failing(error) => Some(FencedQueue.Action.Fail(error, a.maxAttempts, a.retryDelay))
    case _ => None
  }

  /** One transaction or outside call of a run before its last. */
  ghost function Advance(w: World, run: nat, input: Input): World
    requires run in w.attempts && Ending(w.attempts[run]).None?
  {
    var a := w.attempts[run];
    var ok := !input.Fails?;
    match a.phase
    case Claimed => Goto(w, run, AfterLoading(w.messages, a.message))
    case Selecting(index) =>
      Goto(w, run, if ok then AfterLookup(FindActive(w.sets, Customer(w, a)), index) else Failing(STATE_ACCESS_FAILED))
    case Marking(_, _, _) => MarkChoice(w, run, ok)
    case Extracting => Goto(w, run, AfterExtraction(input, _ => []))
    case Searching(request) => Goto(w, run, AfterSearch(input, request))
    case Storing(_) => StoreResults(w, run, Customer(w, a), ok)
    case PersistingUnmet(_) => PersistDemand(w, run, ok)
    case Sending(_) => SendReply(w, run, Customer(w, a), ok)
  }

  /** The next step of a run. */
  ghost function Proceed(w: World, run: nat, input: Input, at: int): World
    requires run in w.attempts
  {
    var ending := Ending(w.attempts[run]);
    if ending.Some? then Finish(w, run, ending.value, at) else Advance(w, run, input)
  }

  predicate Referenced(jobs: map<nat, Row>, m: nat) { exists j | j in jobs :: jobs[j].payload == m }

  /** One step of the system; an event that is not possible in `w` leaves it as it is. */
  ghost function Step(w: World, e: Event): World {
    match e
    case Arrive(m, job, content, at) =>
      if m in w.messages || job in w.jobs || Referenced(w.jobs, m) then w
      else w.(messages := w.messages[m := content], jobs := w.jobs[job := FencedQueue.NewRow(m, at)])
    case Start(run, job, maxAttempts, retryDelay, staleAfter, at) =>
      if run in w.attempts || job !in w.jobs || !FencedQueue.Eligible(w.jobs[job], at, staleAfter) then w
      else
        var claimed := FencedQueue.ClaimRow(w.jobs[job], at);
        w.(jobs := w.jobs[job := claimed],
           attempts := w.attempts[run := Attempt(job, claimed.attempts, claimed.payload, maxAttempts, retryDelay, Claimed)])
    case Work(run, input, at) => if run in w.attempts then Proceed(w, run, input, at) else w
    case Crash(run) => w.(attempts := w.attempts - {run})
  }

  ghost function Run(w: World, es: seq<Event>): World
    decreases |es|
  {
    if es == [] then w else Run(Step(w, es[0]), es[1..])
  }

  lemma {:induction false} RunAppend(w: World, a: seq<Event>, b: seq<Event>)
    ensures Run(w, a + b) == Run(Run(w, a), b)
    decreases |a|
  {
    if a == [] {
      assert a + b == b;
    } else {
      assert (a + b)[0] == a[0] && (a + b)[1..] == a[1..] + b;
      RunAppend(Step(w, a[0]), a[1..], b);
    }
  }

  lemma RunOne(w: World, e: Event)
    ensures Run(w, [e]) == Step(w, e)
  {
    assert Run(Step(w, e), []) == Step(w, e);
  }

  // ----- what every step keeps

  ghost predicate SentBy(w: World, i: nat, job: nat, token: nat) {
    i < |w.sends| && w.sends[i].job == job && w.sends[i].token == token
  }

  ghost predicate NotSent(w: World, a: Attempt) { forall i :: !SentBy(w, i, a.job, a.token) }

  /** A reply promises nothing that is not committed. */
  ghost predicate Backed(w: World, m: nat, reply: Reply) {
    m in w.messages ==>
      match reply
      case RecommendationList(results) => exists id :: HoldsSnapshots(w.sets, id, w.messages[m].userId, m, results)
      case Confirmation(chosen) => exists id :: HoldsSelection(w.sets, id, w.messages[m].userId, chosen)
      case NothingFound(_) => m in w.unmet
      case _ => true
  }

  ghost predicate HoldsSnapshots(sets: Sets, id: nat, customer: string, m: nat, results: seq<SearchResult>) {
    id in sets && sets[id].customer == customer && sets[id].source == m && sets[id].displayed == Snapshots(results)
  }

  ghost predicate HoldsSelection(sets: Sets, id: nat, customer: string, chosen: Displayed) {
    id in sets && sets[id].customer == customer && sets[id].status.Selected? && chosen in sets[id].displayed
  }

  ghost predicate PhaseAt(w: World, a: Attempt)
    requires a.message in w.messages
  {
    var m := w.messages[a.message];
    match a.phase
    case Claimed | Failing(_) => NotSent(w, a)
    case Completing(replied) => if replied then exists i :: SentBy(w, i, a.job, a.token) else m.channel.WhatsApp? && !m.kind.Text?
    case Releasing => !m.channel.WhatsApp?
    case Marking(id, choice, chosen) =>
      && NotSent(w, a) && NeedsReply(m)
      && id in w.sets && w.sets[id].customer == m.userId
      && 1 <= choice <= |w.sets[id].displayed| && w.sets[id].displayed[choice - 1] == chosen
    case Sending(reply) => NotSent(w, a) && NeedsReply(m) && Backed(w, a.message, reply)
    case _ => NotSent(w, a) && NeedsReply(m)
  }

  ghost predicate AttemptAt(w: World, r: nat) {
    r in w.attempts ==>
      var a := w.attempts[r];
      && a.job in w.jobs && w.jobs[a.job].payload == a.message && a.message in w.messages
      && 1 <= a.token <= w.jobs[a.job].attempts
      && PhaseAt(w, a)
  }

  ghost predicate ClaimsApart(w: World, r: nat, s: nat) {
    r in w.attempts && s in w.attempts && r != s ==>
      w.attempts[r].job != w.attempts[s].job || w.attempts[r].token != w.attempts[s].token
  }

  ghost predicate SendAt(w: World, i: nat) {
    i < |w.sends| ==>
      var s := w.sends[i];
      && s.job in w.jobs && 1 <= s.token <= w.jobs[s.job].attempts
      && var m := w.jobs[s.job].payload;
      && m in w.messages && NeedsReply(w.messages[m])
      && s.recipient == w.messages[m].userId
      && Backed(w, m, s.reply)
  }

  ghost predicate SendsApart(w: World, i: nat, k: nat) {
    i < k < |w.sends| ==> w.sends[i].job != w.sends[k].job || w.sends[i].token != w.sends[k].token
  }

  ghost predicate Answered(w: World, j: nat) { exists i :: 0 <= i < |w.sends| && w.sends[i].job == j }

  ghost predicate JobAnswered(w: World, j: nat) {
    j in w.jobs ==>
      && w.jobs[j].payload in w.messages
      && (w.jobs[j].status.Completed? && NeedsReply(w.messages[w.jobs[j].payload]) ==> Answered(w, j))
  }

  ghost predicate SetIdAt(w: World, id: nat) { id in w.sets ==> id < w.nextSet }

  ghost predicate Invariant(w: World) {
    && (forall r :: AttemptAt(w, r))
    && (forall r, s :: ClaimsApart(w, r, s))
    && (forall i :: SendAt(w, i))
    && (forall i, k :: SendsApart(w, i, k))
    && (forall j :: JobAnswered(w, j))
    && (forall id :: SetIdAt(w, id))
    && SetsOk(w.sets)
  }

  // ----- growth

  ghost predicate MessageKept(w: World, w': World, m: nat) {
    m in w.messages ==> m in w'.messages && w'.messages[m] == w.messages[m]
  }

  ghost predicate JobKept(w: World, w': World, j: nat) {
    j in w.jobs ==> j in w'.jobs && w'.jobs[j].payload == w.jobs[j].payload && w.jobs[j].attempts <= w'.jobs[j].attempts
  }

  ghost predicate SetKept(w: World, w': World, id: nat) {
    id in w.sets ==>
      && id in w'.sets
      && w'.sets[id].customer == w.sets[id].customer && w'.sets[id].source == w.sets[id].source
      && w'.sets[id].displayed == w.sets[id].displayed
      && (w.sets[id].status.Selected? ==> w'.sets[id].status.Selected?)
  }

  ghost predicate UnmetKept(w: World, w': World, m: nat) { m in w.unmet ==> m in w'.unmet }

  /** Messages, displayed sets, unmet demands and acknowledged sends only accumulate. */
  ghost predicate Grows(w: World, w': World) {
    && (forall m :: MessageKept(w, w', m))
    && (forall j :: JobKept(w, w', j))
    && (forall id :: SetKept(w, w', id))
    && (forall m :: UnmetKept(w, w', m))
    && w.sends <= w'.sends
    && w.nextSet <= w'.nextSet
  }

  lemma GrowsTransitive(a: World, b: World, c: World)
    requires Grows(a, b) && Grows(b, c)
    ensures Grows(a, c)
  {
    forall m ensures MessageKept(a, c, m) { assert MessageKept(a, b, m) && MessageKept(b, c, m); }
    forall j ensures JobKept(a, c, j) { assert JobKept(a, b, j) && JobKept(b, c, j); }
    forall id ensures SetKept(a, c, id) { assert SetKept(a, b, id) && SetKept(b, c, id); }
    forall m ensures UnmetKept(a, c, m) { assert UnmetKept(a, b, m) && UnmetKept(b, c, m); }
  }

  lemma BackedGrows(w: World, w': World, m: nat, reply: Reply)
    requires Grows(w, w') && m in w.messages && Backed(w, m, reply)
    ensures Backed(w', m, reply)
  {
    assert MessageKept(w, w', m) && UnmetKept(w, w', m);
    var customer := w.messages[m].userId;
    match reply
    case RecommendationList(results) =>
      var id :| HoldsSnapshots(w.sets, id, customer, m, results);
      assert SetKept(w, w', id) && HoldsSnapshots(w'.sets, id, customer, m, results);
    case Confirmation(chosen) =>
      var id :| HoldsSelection(w.sets, id, customer, chosen);
      assert SetKept(w, w', id) && HoldsSelection(w'.sets, id, customer, chosen);
    case _ =>
  }

  /** A run is undisturbed while the world grows and no reply with its claim is added. */
  lemma AttemptGrows(w: World, w': World, r: nat)
    requires AttemptAt(w, r) && r in w.attempts && r in w'.attempts && w'.attempts[r] == w.attempts[r]
    requires Grows(w, w')
    requires forall i | |w.sends| <= i :: !SentBy(w', i, w.attempts[r].job, w.attempts[r].token)
    ensures AttemptAt(w', r)
  {
    var a := w.attempts[r];
    assert JobKept(w, w', a.job) && MessageKept(w, w', a.message);
    forall i | NotSent(w, a) ensures !SentBy(w', i, a.job, a.token) { assert !SentBy(w, i, a.job, a.token); }
    match a.phase
    case Completing(replied) =>
      if replied {
        var i :| SentBy(w, i, a.job, a.token);
        assert SentBy(w', i, a.job, a.token);
      }
    case Marking(id, _, _) => assert SetKept(w, w', id);
    case Sending(reply) => BackedGrows(w, w', a.message, reply);
    case _ =>
  }

  lemma SendGrows(w: World, w': World, i: nat)
    requires SendAt(w, i) && i < |w.sends| && Grows(w, w')
    ensures SendAt(w', i)
  {
    var s := w.sends[i];
    assert w'.sends[i] == s && JobKept(w, w', s.job);
    var m := w.jobs[s.job].payload;
    assert MessageKept(w, w', m);
    BackedGrows(w, w', m, s.reply);
  }
}
