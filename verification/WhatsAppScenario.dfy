/** A race that ends in a selected set which was already superseded, from any state with an active set. */
module WhatsAppScenario {
  import opened Common
  import opened Documents
  import opened Ingestion
  import opened Recommendations
  import opened WhatsAppWorker
  import opened WhatsAppInvariant
  import opened WhatsAppLaws
  import opened WhatsAppRaces
  import FencedQueue

  predicate Unused(w: World, n: nat) {
    n !in w.messages && n !in w.jobs && n !in w.attempts && !Referenced(w.jobs, n)
  }

  /** `w` after message `n` arrived as job `n` and run `n` claimed it and came to `phase`. */
  function InPhase(w: World, n: nat, m: Message, phase: Phase): World {
    w.(messages := w.messages[n := m],
       jobs := w.jobs[n := FencedQueue.ClaimRow(FencedQueue.NewRow(n, 0), 0)],
       attempts := w.attempts[n := Attempt(n, 1, n, 1, 0, phase)])
  }

  lemma ArriveAndClaim(w: World, n: nat, m: Message)
    requires Unused(w, n)
    ensures Step(Step(w, Arrive(n, n, m, 0)), Start(n, n, 1, 0, 0, 0)) == InPhase(w, n, m, Claimed)
  {
    var w1 := Step(w, Arrive(n, n, m, 0));
    var row: FencedQueue.Row<nat> := FencedQueue.NewRow(n, 0);
    assert w1 == w.(messages := w.messages[n := m], jobs := w.jobs[n := row]);
    assert w.jobs[n := row][n := FencedQueue.ClaimRow(row, 0)] == w.jobs[n := FencedQueue.ClaimRow(row, 0)];
  }

  lemma OneStep(w: World, n: nat, m: Message, p: Phase, input: Input, p': Phase)
    requires Ending(InPhase(w, n, m, p).attempts[n]).None?
    requires Advance(InPhase(w, n, m, p), n, input) == Goto(InPhase(w, n, m, p), n, p')
    ensures Step(InPhase(w, n, m, p), Work(n, input, 0)) == InPhase(w, n, m, p')
  {
  }

  ghost predicate Reaches(w: World, w': World) { exists es :: Run(w, es) == w' }

  lemma OneStepReaches(w: World, e: Event)
    ensures Reaches(w, Step(w, e))
  {
    RunOne(w, e);
  }

  lemma ReachesTransitive(a: World, b: World, c: World)
    requires Reaches(a, b) && Reaches(b, c)
    ensures Reaches(a, c)
  {
    var es1 :| Run(a, es1) == b;
    var es2 :| Run(b, es2) == c;
    RunAppend(a, es1, es2);
  }

  lemma ReachesClaimed(w: World, n: nat, m: Message)
    requires Unused(w, n)
    ensures Reaches(w, InPhase(w, n, m, Claimed))
  {
    var w1 := Step(w, Arrive(n, n, m, 0));
    OneStepReaches(w, Arrive(n, n, m, 0));
    OneStepReaches(w1, Start(n, n, 1, 0, 0, 0));
    ArriveAndClaim(w, n, m);
    ReachesTransitive(w, w1, InPhase(w, n, m, Claimed));
  }

  lemma ReachesNext(w: World, n: nat, m: Message, p: Phase, input: Input, p': Phase)
    requires Reaches(w, InPhase(w, n, m, p))
    requires Ending(InPhase(w, n, m, p).attempts[n]).None?
    requires Advance(InPhase(w, n, m, p), n, input) == Goto(InPhase(w, n, m, p), n, p')
    ensures Reaches(w, InPhase(w, n, m, p'))
  {
    OneStep(w, n, m, p, input, p');
    OneStepReaches(InPhase(w, n, m, p), Work(n, input, 0));
    ReachesTransitive(w, InPhase(w, n, m, p), InPhase(w, n, m, p'));
  }

  const ASK := Request(ProductSearch, None, "ru")

  lemma ReachesStoring(w: World, n: nat, m: Message, results: seq<SearchResult>)
    requires Unused(w, n) && NeedsReply(m) && !IsNumericSelection(Strip(TextOf(m))) && results != []
    ensures Reaches(w, InPhase(w, n, m, Storing(results)))
  {
    ReachesClaimed(w, n, m);
    ReachesNext(w, n, m, Claimed, Succeeds, Extracting);
    ReachesNext(w, n, m, Extracting, Understood(ASK), Searching(ASK));
    ReachesNext(w, n, m, Searching(ASK), Found(results), Storing(results));
  }

  lemma ReachesMarking(w: World, n: nat, m: Message, i: nat, id: nat)
    requires Invariant(w) && Unused(w, n) && NeedsReply(m) && Strip(TextOf(m)) == Decimal(i)
    requires id in ActiveIds(w.sets, m.userId) && 1 <= i <= |w.sets[id].displayed|
    ensures Reaches(w, InPhase(w, n, m, Marking(id, i, w.sets[id].displayed[i - 1])))
  {
    ParseOfDecimal(i);
    ActiveSetIsFound(w, id, m.userId);
    ReachesClaimed(w, n, m);
    ReachesNext(w, n, m, Claimed, Succeeds, Selecting(i));
    ReachesNext(w, n, m, Selecting(i), Succeeds, Marking(id, i, w.sets[id].displayed[i - 1]));
  }

  lemma ReachesInvariant(w: World, w': World)
    requires Invariant(w) && Reaches(w, w')
    ensures Invariant(w')
  {
    var es :| Run(w, es) == w';
    RunKeepsInvariant(w, es);
  }

  // ----- a superseded set becomes selected

  /** In `between` the set is superseded, in `after` it is selected, while a newer one is active. */
  ghost predicate RaceAt(w: World, between: World, after: World, id: nat, customer: string) {
    && Reaches(w, between) && Reaches(between, after)
    && id in between.sets && between.sets[id].status.Superseded?
    && id in after.sets && after.sets[id].status.Selected?
    && ActiveIds(after.sets, customer) == {w.nextSet}
  }

  lemma ChoiceAndStoreReached(w: World, chooser: nat, numeral: Message, i: nat, storer: nat, text: Message, results: seq<SearchResult>, id: nat)
    requires Invariant(w) && chooser != storer && Unused(w, chooser) && Unused(w, storer)
    requires NeedsReply(numeral) && NeedsReply(text)
    requires Strip(TextOf(numeral)) == Decimal(i) && !IsNumericSelection(Strip(TextOf(text))) && results != []
    requires id in ActiveIds(w.sets, numeral.userId) && 1 <= i <= |w.sets[id].displayed|
    ensures var w1 := InPhase(w, chooser, numeral, Marking(id, i, w.sets[id].displayed[i - 1]));
            var w2 := InPhase(w1, storer, text, Storing(results));
            Reaches(w, w2) && Invariant(w2)
  {
    var w1 := InPhase(w, chooser, numeral, Marking(id, i, w.sets[id].displayed[i - 1]));
    var w2 := InPhase(w1, storer, text, Storing(results));
    ReachesMarking(w, chooser, numeral, i, id);
    ReachesStoring(w1, storer, text, results);
    ReachesTransitive(w, w1, w2);
    ReachesInvariant(w, w2);
  }

  /** From any reachable state with an active set, two messages of its customer can end in the race. */
  lemma SupersededThenSelectedIsReachable(
    w: World, chooser: nat, numeral: Message, i: nat, storer: nat, text: Message, results: seq<SearchResult>, id: nat)
    requires Invariant(w) && chooser != storer && Unused(w, chooser) && Unused(w, storer)
    requires NeedsReply(numeral) && NeedsReply(text) && numeral.userId == text.userId
    requires Strip(TextOf(numeral)) == Decimal(i) && !IsNumericSelection(Strip(TextOf(text))) && results != []
    requires id in ActiveIds(w.sets, numeral.userId) && 1 <= i <= |w.sets[id].displayed|
    ensures exists between, after :: RaceAt(w, between, after, id, numeral.userId)
  {
    var w2 := InPhase(InPhase(w, chooser, numeral, Marking(id, i, w.sets[id].displayed[i - 1])), storer, text, Storing(results));
    ChoiceAndStoreReached(w, chooser, numeral, i, storer, text, results, id);
    SupersededSetsCanBeSelected(w2, chooser, storer, 0);
    var between := Step(w2, Work(storer, Succeeds, 0));
    var after := Step(between, Work(chooser, Succeeds, 0));
    OneStepReaches(w2, Work(storer, Succeeds, 0));
    OneStepReaches(between, Work(chooser, Succeeds, 0));
    ReachesTransitive(w, w2, between);
    assert RaceAt(w, between, after, id, numeral.userId);
  }

  // ----- a confirmation names another product than the selected one

  /** The last reply confirmed a product that is not the stored selection of the set. */
  ghost predicate Misconfirmed(w: World, id: nat) {
    && id in w.sets && w.sets[id].status.Selected? && w.sets[id].selectedProduct.Some?
    && w.sends != [] && w.sends[|w.sends| - 1].reply.Confirmation?
    && w.sets[id].selectedProduct.value != w.sends[|w.sends| - 1].reply.chosen.productId
  }

  lemma TwoChoicesReached(w: World, first: nat, one: Message, i: nat, second: nat, two: Message, j: nat, id: nat)
    requires Invariant(w) && first != second && Unused(w, first) && Unused(w, second)
    requires NeedsReply(one) && NeedsReply(two) && one.userId == two.userId
    requires Strip(TextOf(one)) == Decimal(i) && Strip(TextOf(two)) == Decimal(j)
    requires id in ActiveIds(w.sets, one.userId) && 1 <= i <= |w.sets[id].displayed| && 1 <= j <= |w.sets[id].displayed|
    ensures var w1 := InPhase(w, first, one, Marking(id, i, w.sets[id].displayed[i - 1]));
            var w2 := InPhase(w1, second, two, Marking(id, j, w.sets[id].displayed[j - 1]));
            Reaches(w, w2) && Invariant(w2)
  {
    var w1 := InPhase(w, first, one, Marking(id, i, w.sets[id].displayed[i - 1]));
    var w2 := InPhase(w1, second, two, Marking(id, j, w.sets[id].displayed[j - 1]));
    ReachesMarking(w, first, one, i, id);
    ReachesInvariant(w, w1);
    ReachesMarking(w1, second, two, j, id);
    ReachesTransitive(w, w1, w2);
    ReachesInvariant(w1, w2);
  }

  lemma ThreeSteps(w: World, e1: Event, e2: Event, e3: Event)
    ensures Reaches(w, Step(Step(Step(w, e1), e2), e3))
  {
    var w1 := Step(w, e1);
    var w2 := Step(w1, e2);
    OneStepReaches(w, e1);
    OneStepReaches(w1, e2);
    OneStepReaches(w2, e3);
    ReachesTransitive(w, w1, w2);
    ReachesTransitive(w, w2, Step(w2, e3));
  }

  /** From any reachable state whose active set shows two different products, a confirmation can name the wrong one. */
  lemma OvertakenConfirmationIsReachable(
    w: World, first: nat, one: Message, i: nat, second: nat, two: Message, j: nat, id: nat)
    requires Invariant(w) && first != second && Unused(w, first) && Unused(w, second)
    requires NeedsReply(one) && NeedsReply(two) && one.userId == two.userId
    requires Strip(TextOf(one)) == Decimal(i) && Strip(TextOf(two)) == Decimal(j)
    requires id in ActiveIds(w.sets, one.userId) && 1 <= i <= |w.sets[id].displayed| && 1 <= j <= |w.sets[id].displayed|
    requires w.sets[id].displayed[i - 1].productId != w.sets[id].displayed[j - 1].productId
    ensures exists sent :: Reaches(w, sent) && Misconfirmed(sent, id)
  {
    var w1 := InPhase(w, first, one, Marking(id, i, w.sets[id].displayed[i - 1]));
    var w2 := InPhase(w1, second, two, Marking(id, j, w.sets[id].displayed[j - 1]));
    TwoChoicesReached(w, first, one, i, second, two, j, id);
    ConfirmationCanBeOvertaken(w2, first, second, 0);
    ThreeSteps(w2, Work(first, Succeeds, 0), Work(second, Succeeds, 0), Work(first, Succeeds, 0));
    ReachesTransitive(w, w2, Step(Step(Step(w2, Work(first, Succeeds, 0)), Work(second, Succeeds, 0)), Work(first, Succeeds, 0)));
  }
}
