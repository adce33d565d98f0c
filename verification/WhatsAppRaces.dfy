/** Recommendation sets between the lookup of a choice, its marking and its confirmation. */
module WhatsAppRaces {
  import opened Common
  import opened Recommendations
  import opened WhatsAppWorker
  import opened WhatsAppInvariant
  import opened WhatsAppLaws

  // ----- what one step does to one set

  /** Event `e` commits the marking of set `id`. */
  ghost predicate Marks(w: World, e: Event, id: nat) {
    && e.Work? && e.run in w.attempts && !e.input.Fails?
    && w.attempts[e.run].phase.Marking? && w.attempts[e.run].phase.setId == id
  }

  ghost function MarkedProduct(w: World, e: Event): nat
    requires e.Work? && e.run in w.attempts && w.attempts[e.run].phase.Marking?
  {
    w.attempts[e.run].phase.chosen.productId
  }

  /** Event `e` stores a new set for the customer of set `id` while that one is active. */
  ghost predicate Supersedes(w: World, e: Event, id: nat) {
    && e.Work? && e.run in w.attempts && !e.input.Fails? && w.attempts[e.run].phase.Storing?
    && id in w.sets && w.sets[id].status.Active? && w.sets[id].customer == Customer(w, w.attempts[e.run])
  }

  ghost predicate RowChanges(w: World, w': World, e: Event, id: nat)
    requires id in w.sets
  {
    && id in w'.sets
    && w'.sets[id].status == (if Marks(w, e, id) then Selected else if Supersedes(w, e, id) then Superseded else w.sets[id].status)
    && w'.sets[id].selectedProduct == (if Marks(w, e, id) then Some(MarkedProduct(w, e)) else w.sets[id].selectedProduct)
  }

  lemma AdvanceChangesRow(w: World, e: Event, id: nat)
    requires Invariant(w) && id in w.sets && e.Work? && e.run in w.attempts && Ending(w.attempts[e.run]).None?
    ensures RowChanges(w, Advance(w, e.run, e.input), e, id)
  {
    assert SetIdAt(w, id);
    match w.attempts[e.run].phase
    case Marking(_, _, _) => MarkChangesRow(w, e, id);
    case Storing(_) => StoreChangesRow(w, e, id);
    case PersistingUnmet(_) => OthersKeepSets(w, e.run, !e.input.Fails?);
    case Sending(_) => OthersKeepSets(w, e.run, !e.input.Fails?);
    case _ => ReadingKeepsSets(w, e.run, e.input);
  }

  lemma MarkChangesRow(w: World, e: Event, id: nat)
    requires id in w.sets && e.Work? && e.run in w.attempts && w.attempts[e.run].phase.Marking?
    ensures RowChanges(w, MarkChoice(w, e.run, !e.input.Fails?), e, id)
  {
  }

  lemma StoreChangesRow(w: World, e: Event, id: nat)
    requires id in w.sets && id != w.nextSet && e.Work? && e.run in w.attempts && w.attempts[e.run].phase.Storing?
    ensures RowChanges(w, StoreResults(w, e.run, Customer(w, w.attempts[e.run]), !e.input.Fails?), e, id)
  {
  }

  /** A set changes status only when it is marked or superseded, and its product only when it is marked. */
  lemma StepChangesRow(w: World, e: Event, id: nat)
    requires Invariant(w) && id in w.sets
    ensures RowChanges(w, Step(w, e), e, id)
  {
    if e.Work? && e.run in w.attempts && Ending(w.attempts[e.run]).None? {
      AdvanceChangesRow(w, e, id);
    }
  }

  // ----- what a run does to one set

  ghost predicate MarksAt(w: World, es: seq<Event>, i: nat, id: nat) {
    i < |es| && Marks(Run(w, es[..i]), es[i], id)
  }

  ghost predicate SupersedesAt(w: World, es: seq<Event>, i: nat, id: nat) {
    i < |es| && Supersedes(Run(w, es[..i]), es[i], id)
  }

  ghost predicate NoMarkAfter(w: World, es: seq<Event>, i: int, id: nat) {
    forall j: nat :: i < j ==> !MarksAt(w, es, j, id)
  }

  /** Step `i` supersedes the set, and nobody marks it after that. */
  ghost predicate LeavesSuperseded(w: World, es: seq<Event>, i: nat, id: nat) {
    SupersedesAt(w, es, i, id) && NoMarkAfter(w, es, i, id)
  }

  ghost predicate LastMarkAt(w: World, es: seq<Event>, i: nat, id: nat) {
    MarksAt(w, es, i, id) && NoMarkAfter(w, es, i, id)
  }

  lemma RunSnoc(w: World, front: seq<Event>, e: Event)
    ensures Run(w, front + [e]) == Step(Run(w, front), e)
  {
    RunAppend(w, front, [e]);
    RunOne(Run(w, front), e);
  }

  lemma AtSnoc(w: World, front: seq<Event>, e: Event, i: nat, id: nat)
    ensures MarksAt(w, front + [e], i, id) <==> MarksAt(w, front, i, id) || (i == |front| && Marks(Run(w, front), e, id))
    ensures SupersedesAt(w, front + [e], i, id) <==>
            SupersedesAt(w, front, i, id) || (i == |front| && Supersedes(Run(w, front), e, id))
  {
    if i <= |front| { assert (front + [e])[..i] == front[..i]; }
    assert front[..|front|] == front;
  }

  lemma NoMarkAfterSnoc(w: World, front: seq<Event>, e: Event, i: int, id: nat)
    requires i < |front|
    ensures NoMarkAfter(w, front + [e], i, id) <==> NoMarkAfter(w, front, i, id) && !Marks(Run(w, front), e, id)
  {
    forall j: nat ensures MarksAt(w, front + [e], j, id) <==> MarksAt(w, front, j, id) || (j == |front| && Marks(Run(w, front), e, id)) {
      AtSnoc(w, front, e, j, id);
    }
    if Marks(Run(w, front), e, id) { assert MarksAt(w, front + [e], |front|, id); }
  }

  lemma NothingAfterLast(w: World, front: seq<Event>, e: Event, id: nat)
    ensures NoMarkAfter(w, front + [e], |front|, id)
  {
  }

  lemma LeavesSupersededSnoc(w: World, front: seq<Event>, e: Event, i: nat, id: nat)
    ensures LeavesSuperseded(w, front + [e], i, id) <==>
            || (i < |front| && LeavesSuperseded(w, front, i, id) && !Marks(Run(w, front), e, id))
            || (i == |front| && Supersedes(Run(w, front), e, id))
  {
    AtSnoc(w, front, e, i, id);
    if i < |front| { NoMarkAfterSnoc(w, front, e, i, id); }
    if i == |front| { NothingAfterLast(w, front, e, id); }
  }

  lemma LastMarkSnoc(w: World, front: seq<Event>, e: Event, i: nat, id: nat)
    ensures LastMarkAt(w, front + [e], i, id) <==>
            || (i < |front| && LastMarkAt(w, front, i, id) && !Marks(Run(w, front), e, id))
            || (i == |front| && Marks(Run(w, front), e, id))
  {
    AtSnoc(w, front, e, i, id);
    if i < |front| { NoMarkAfterSnoc(w, front, e, i, id); }
    if i == |front| { NothingAfterLast(w, front, e, id); }
  }

  lemma SetSurvives(w: World, es: seq<Event>, id: nat)
    requires Invariant(w) && id in w.sets
    ensures Invariant(Run(w, es)) && id in Run(w, es).sets
  {
    RunKeepsInvariant(w, es);
    assert SetKept(w, Run(w, es), id);
  }

  /**
   A set that was not superseded is superseded after a run exactly when some step of the run stored a
   newer set for its customer while it was active, and no run has marked it since.
   */
  lemma {:induction false} SupersededExactlyWhen(w: World, es: seq<Event>, id: nat)
    requires Invariant(w) && id in w.sets && !w.sets[id].status.Superseded?
    ensures id in Run(w, es).sets
    ensures Run(w, es).sets[id].status.Superseded? <==> exists i: nat :: LeavesSuperseded(w, es, i, id)
    decreases |es|
  {
    SetSurvives(w, es, id);
    if es != [] {
      var front, e := es[..|es| - 1], es[|es| - 1];
      assert es == front + [e];
      SupersededExactlyWhen(w, front, id);
      SetSurvives(w, front, id);
      RunSnoc(w, front, e);
      StepChangesRow(Run(w, front), e, id);
      SupersededSnoc(w, front, e, id);
    }
  }

  lemma SupersededSnoc(w: World, front: seq<Event>, e: Event, id: nat)
    ensures (exists i: nat :: LeavesSuperseded(w, front + [e], i, id)) <==>
            || Supersedes(Run(w, front), e, id)
            || (!Marks(Run(w, front), e, id) && exists i: nat :: LeavesSuperseded(w, front, i, id))
  {
    if i: nat :| LeavesSuperseded(w, front + [e], i, id) { LeavesSupersededSnoc(w, front, e, i, id); }
    if Supersedes(Run(w, front), e, id) { LeavesSupersededSnoc(w, front, e, |front|, id); }
    if i: nat :| LeavesSuperseded(w, front, i, id) { LeavesSupersededSnoc(w, front, e, i, id); }
  }

  /** A lookup that resolves a choice found its set active. */
  lemma LookupFindsActiveSet(w: World, run: nat, at: int)
    requires Invariant(w) && run in w.attempts && w.attempts[run].phase.Selecting?
    requires run in Step(w, Work(run, Succeeds, at)).attempts && Step(w, Work(run, Succeeds, at)).attempts[run].phase.Marking?
    ensures var found := Step(w, Work(run, Succeeds, at));
            var p := found.attempts[run].phase;
            && Invariant(found) && found.sets == w.sets && p.setId in w.sets && w.sets[p.setId].status.Active?
  {
    var a := w.attempts[run];
    StepKeepsInvariant(w, Work(run, Succeeds, at));
    assert AttemptAt(w, run);
    assert FindActive(w.sets, Customer(w, a)).Some?;
  }

  /**
   When marking meets a superseded set.  A run looks up a choice on an active set and marks it some
   time later.  The set it marks is superseded at that moment exactly when, since the lookup, another
   run stored a set for the same customer while this one was active, and no third run has marked it
   since.  In that case, and in no other, the marking turns a superseded set into a selected one.
   */
  lemma MarkingSupersededExactlyWhen(w: World, run: nat, es: seq<Event>, lookupAt: int, at: int)
    requires Invariant(w) && run in w.attempts && w.attempts[run].phase.Selecting?
    requires var found := Step(w, Work(run, Succeeds, lookupAt)); run in found.attempts && found.attempts[run].phase.Marking?
    requires forall e | e in es :: !IsOf(e, run)
    ensures var found := Step(w, Work(run, Succeeds, lookupAt));
            var id := found.attempts[run].phase.setId;
            var before := Run(found, es);
            var after := Step(before, Work(run, Succeeds, at));
            && id in before.sets && id in after.sets
            && (before.sets[id].status.Superseded? <==> exists i: nat :: LeavesSuperseded(found, es, i, id))
            && after.sets[id].status.Selected?
  {
    var found := Step(w, Work(run, Succeeds, lookupAt));
    LookupFindsActiveSet(w, run, lookupAt);
    SupersededExactlyWhen(found, es, found.attempts[run].phase.setId);
    ChoiceIsMarked(found, run, es, at);
  }

  // ----- what a confirmation confirms

  /** Every last marking of the set in this run marked product `p`; there is at most one. */
  ghost predicate LastMarkIsOf(w: World, es: seq<Event>, id: nat, p: nat) {
    forall i: nat :: LastMarkAt(w, es, i, id) ==> MarkedProduct(Run(w, es[..i]), es[i]) == p
  }

  lemma LastMarkIsOfSnoc(w: World, front: seq<Event>, e: Event, id: nat, p: nat)
    ensures LastMarkIsOf(w, front + [e], id, p) <==>
            if Marks(Run(w, front), e, id) then MarkedProduct(Run(w, front), e) == p else LastMarkIsOf(w, front, id, p)
  {
    assert (front + [e])[..|front|] == front;
    if Marks(Run(w, front), e, id) { LastMarkSnoc(w, front, e, |front|, id); }
    forall i: nat ensures LastMarkAt(w, front + [e], i, id) <==>
        (i < |front| && LastMarkAt(w, front, i, id) && !Marks(Run(w, front), e, id)) || (i == |front| && Marks(Run(w, front), e, id))
    {
      LastMarkSnoc(w, front, e, i, id);
    }
    forall i: nat | i < |front| ensures (front + [e])[..i] == front[..i] && (front + [e])[i] == front[i] {}
  }

  /** The stored product of a set is that of its last marking. */
  lemma {:induction false} ProductIsLastMarked(w: World, es: seq<Event>, id: nat, p: nat)
    requires Invariant(w) && id in w.sets && w.sets[id].selectedProduct == Some(p)
    ensures id in Run(w, es).sets
    ensures Run(w, es).sets[id].selectedProduct == Some(p) <==> LastMarkIsOf(w, es, id, p)
    decreases |es|
  {
    SetSurvives(w, es, id);
    if es != [] {
      var front, e := es[..|es| - 1], es[|es| - 1];
      assert es == front + [e];
      ProductIsLastMarked(w, front, id, p);
      SetSurvives(w, front, id);
      RunSnoc(w, front, e);
      StepChangesRow(Run(w, front), e, id);
      LastMarkIsOfSnoc(w, front, e, id, p);
    }
  }

  lemma ConfirmationStep(w: World, run: nat, chosen: Displayed, at: int)
    requires run in w.attempts && w.attempts[run].phase == Sending(Confirmation(chosen))
    ensures var sent := Step(w, Work(run, Succeeds, at));
            sent.sets == w.sets && |sent.sends| == |w.sends| + 1 && sent.sends[|w.sends|].reply == Confirmation(chosen)
  {
  }

  /**
   Confirmed is selected, exactly when.  A run marks its choice, others go on, and the run sends its
   confirmation.  The product it confirms is then the stored selection of the set exactly when no
   other run's marking of that set in between left another product: the last such marking, if there
   is any, chose the same one.
   */
  lemma ConfirmedIsSelectedExactlyWhen(w: World, run: nat, es: seq<Event>, at: int)
    requires Invariant(w) && run in w.attempts && w.attempts[run].phase.Marking? && forall e | e in es :: !IsOf(e, run)
    ensures var p := w.attempts[run].phase;
            var marked := MarkChoice(w, run, true);
            var now := Run(marked, es);
            var sent := Step(now, Work(run, Succeeds, at));
            && p.setId in sent.sets
            && |sent.sends| == |now.sends| + 1 && sent.sends[|now.sends|].reply == Confirmation(p.chosen)
            && (sent.sets[p.setId].selectedProduct == Some(p.chosen.productId) <==>
                  LastMarkIsOf(marked, es, p.setId, p.chosen.productId))
  {
    var p := w.attempts[run].phase;
    var marked := MarkChoice(w, run, true);
    assert AttemptAt(w, run);
    MarkKeeps(w, run);
    ProductIsLastMarked(marked, es, p.setId, p.chosen.productId);
    OthersLeaveMyAttempt(marked, es, run);
    ConfirmationStep(Run(marked, es), run, p.chosen, at);
  }

  /** In particular a confirmation is of the stored selection when nobody else marks the set in between. */
  lemma UndisturbedConfirmationIsSelected(w: World, run: nat, es: seq<Event>, at: int)
    requires Invariant(w) && run in w.attempts && w.attempts[run].phase.Marking? && forall e | e in es :: !IsOf(e, run)
    requires forall i: nat :: !MarksAt(MarkChoice(w, run, true), es, i, w.attempts[run].phase.setId)
    ensures var sent := Step(Run(MarkChoice(w, run, true), es), Work(run, Succeeds, at));
            var p := w.attempts[run].phase;
            p.setId in sent.sets && sent.sets[p.setId].selectedProduct == Some(p.chosen.productId)
  {
    ConfirmedIsSelectedExactlyWhen(w, run, es, at);
  }

  /**
   The race that breaks it.  Two runs resolved different products of one set; the second marks after
   the first, and the first then confirms a product that is no longer the stored selection.
   */
  lemma ConfirmationCanBeOvertaken(w: World, first: nat, second: nat, at: int)
    requires Invariant(w) && first in w.attempts && second in w.attempts
    requires w.attempts[first].phase.Marking? && w.attempts[second].phase.Marking?
    requires w.attempts[first].phase.setId == w.attempts[second].phase.setId
    requires w.attempts[first].phase.chosen.productId != w.attempts[second].phase.chosen.productId
    ensures var p, q := w.attempts[first].phase, w.attempts[second].phase;
            var marked := Step(Step(w, Work(first, Succeeds, at)), Work(second, Succeeds, at));
            var sent := Step(marked, Work(first, Succeeds, at));
            && p.setId in sent.sets && sent.sets[p.setId].status.Selected?
            && sent.sets[p.setId].selectedProduct == Some(q.chosen.productId)
            && |sent.sends| == |w.sends| + 1 && sent.sends[|w.sends|].reply == Confirmation(p.chosen)
  {
    var p := w.attempts[first].phase;
    var m1 := MarkChoice(w, first, true);
    var es := [Work(second, Succeeds, at)];
    MarkKeeps(w, first);
    OtherLeavesMyAttempt(w, Work(first, Succeeds, at), second);
    RunOne(m1, es[0]);
    assert Step(w, Work(first, Succeeds, at)) == m1;
    assert AttemptAt(w, first);
    StepChangesRow(m1, es[0], p.setId);
    OtherLeavesMyAttempt(m1, es[0], first);
    var m2 := Step(m1, es[0]);
    assert m2 == MarkChoice(m1, second, true);
    ConfirmationStep(m2, first, p.chosen, at);
  }
}
