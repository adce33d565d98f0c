/** What every step of the indexing protocol keeps. */
module IndexingInvariant {
  import opened IndexingProtocol

  /** A catalog write leaves tasks alone and gives each changed product a newest task of its own. */
  ghost predicate WroteAt(s: State, s': State, p: nat) {
    && (p in s.listings ==> p in s'.listings)
    && (p in s'.listings ==>
          || (p in s'.newest && s'.newest[p] in s'.tasks && s'.newest[p] !in s.tasks
              && s'.tasks[s'.newest[p]].status.Pending? && s'.tasks[s'.newest[p]].payload.productId == p)
          || (p in s.listings && s'.listings[p] == s.listings[p]
              && (p in s'.newest <==> p in s.newest) && (p in s.newest ==> s'.newest[p] == s.newest[p])))
  }

  ghost predicate KeptTask(s: State, s': State, t: nat) {
    && (t in s.tasks ==> t in s'.tasks && s'.tasks[t] == s.tasks[t])
    && (t in s'.tasks && t !in s.tasks ==> s'.tasks[t].payload.productId in s'.listings)
  }

  ghost predicate Wrote(s: State, s': State) {
    && s'.client == s.client && s'.render == s.render && s'.embeddings == s.embeddings
    && s'.activities == s.activities && s'.answers == s.answers
    && (forall p :: WroteAt(s, s', p)) && (forall t :: KeptTask(s, s', t))
  }

  lemma AddedTasks(before: map<nat, Listing>, after: map<nat, Listing>, scheduled: map<nat, nat>, at: int)
    requires forall p | p in scheduled :: p in after
    requires forall p, q | p in scheduled && q in scheduled && scheduled[p] == scheduled[q] :: p == q
    ensures var added := ScheduledTasks(before, after, scheduled, at);
            && (forall p | p in scheduled :: scheduled[p] in added && added[scheduled[p]].payload.productId == p
                                             && added[scheduled[p]].status.Pending?)
            && (forall t | t in added :: added[t].payload.productId in after && exists p :: p in scheduled && scheduled[p] == t)
  {
  }

  lemma WriteReachesProduct(s: State, after: map<nat, Listing>, scheduled: map<nat, nat>, at: int, p: nat)
    requires WriteAllowed(s.listings, s.tasks, after, scheduled)
    ensures WroteAt(s, Step(s, Write(after, scheduled, at)), p)
  {
    AddedTasks(s.listings, after, scheduled, at);
    assert p !in scheduled ==> !Changed(s.listings, after, p);
  }

  lemma WriteReachesTask(s: State, after: map<nat, Listing>, scheduled: map<nat, nat>, at: int, t: nat)
    requires WriteAllowed(s.listings, s.tasks, after, scheduled)
    ensures KeptTask(s, Step(s, Write(after, scheduled, at)), t)
  {
    AddedTasks(s.listings, after, scheduled, at);
  }

  lemma WroteKeepsActivity(s: State, s': State, a: nat)
    requires Inv(s) && Wrote(s, s')
    ensures ActivityAt(s', a)
  {
    assert ActivityAt(s, a);
    if a in s.activities {
      var t := s.activities[a].task;
      assert TaskAt(s, t) && KeptTask(s, s', t) && WroteAt(s, s', s.tasks[t].payload.productId);
    }
  }

  lemma WroteKeepsInv(s: State, s': State)
    requires Inv(s) && Wrote(s, s')
    ensures Inv(s')
  {
    forall t ensures TaskAt(s', t) {
      assert TaskAt(s, t) && KeptTask(s, s', t);
      if t in s.tasks { assert WroteAt(s, s', s.tasks[t].payload.productId); }
    }
    forall p ensures ProductAt(s', p) {
      assert ProductAt(s, p) && WroteAt(s, s', p);
      if p in s.newest { assert KeptTask(s, s', s.newest[p]); }
    }
    forall a ensures ActivityAt(s', a) { WroteKeepsActivity(s, s', a); }
    forall p ensures EmbeddingAt(s', p) { assert EmbeddingAt(s, p) && WroteAt(s, s', p); }
  }

  /** A step that leaves catalog and embeddings alone and completes no task keeps what is needed. */
  ghost predicate Quiet(s: State, s': State) {
    && s'.client == s.client && s'.render == s.render && s'.listings == s.listings && s'.embeddings == s.embeddings && s'.newest == s.newest
    && s'.tasks.Keys == s.tasks.Keys && s.answers <= s'.answers
    && (forall t | t in s.tasks ::
          && s'.tasks[t].payload == s.tasks[t].payload && s'.tasks[t].attempts >= s.tasks[t].attempts
          && (s'.tasks[t].status.Completed? ==> s.tasks[t].status.Completed?))
  }

  lemma QuietKeepsInv(s: State, s': State)
    requires Inv(s) && Quiet(s, s')
    requires forall a | a in s'.activities && (a !in s.activities || s.activities[a] != s'.activities[a]) :: ActivityAt(s', a)
    ensures Inv(s')
  {
    forall t ensures TaskAt(s', t) { assert TaskAt(s, t); }
    forall p ensures ProductAt(s', p) { assert ProductAt(s, p); }
    forall a ensures ActivityAt(s', a) { assert ActivityAt(s, a); }
    forall p ensures EmbeddingAt(s', p) { assert EmbeddingAt(s, p); }
  }

  lemma SkipKeepsInv(s: State, a: nat)
    requires Inv(s) && a in s.activities && s.activities[a].phase.Skipping?
    ensures Inv(Step(s, Finish(a)))
  {
    var s' := Step(s, Finish(a));
    var act := s.activities[a];
    assert ActivityAt(s, a);
    forall t ensures TaskAt(s', t) { assert TaskAt(s, t); }
    forall p ensures ProductAt(s', p) { assert ProductAt(s, p); }
    forall b ensures ActivityAt(s', b) { assert ActivityAt(s, b); }
    forall p ensures EmbeddingAt(s', p) { assert EmbeddingAt(s, p); }
  }

  /** A write that succeeds makes its product fresh and touches no other. */
  lemma EmbedKeepsInv(s: State, a: nat)
    requires Inv(s) && a in s.activities && s.activities[a].phase.Writing?
    requires Conclude(s, s.activities[a]).1.Embedded?
    ensures Inv(Step(s, Finish(a)))
  {
    var s' := Step(s, Finish(a));
    var act := s.activities[a];
    var q := s.tasks[act.task].payload.productId;
    assert ActivityAt(s, a);
    assert Fresh(s', q);
    forall t ensures TaskAt(s', t) { assert TaskAt(s, t); }
    forall p ensures ProductAt(s', p) {
      assert ProductAt(s, p);
      assert p != q ==> Fresh(s', p) == Fresh(s, p);
    }
    forall b ensures ActivityAt(s', b) {
      assert ActivityAt(s, b);
      assert forall p :: p != q ==> Fresh(s', p) == Fresh(s, p);
    }
    forall p ensures EmbeddingAt(s', p) { assert EmbeddingAt(s, p); }
  }

  lemma FailIsQuiet(s: State, a: Activity, permanent: bool, message: string)
    ensures Quiet(s, FailTask(s, a, permanent, message).0)
    ensures FailTask(s, a, permanent, message).0.activities == s.activities
  {
  }

  lemma FailedWriteIsQuiet(s: State, a: Activity, text: string, vector: Vector)
    requires !WriteEmbedding(s, a, text, vector).1.Embedded?
    ensures Quiet(s, WriteEmbedding(s, a, text, vector).0)
    ensures WriteEmbedding(s, a, text, vector).0.activities == s.activities
  {
  }

  lemma FinishKeepsInv(s: State, a: nat)
    requires Inv(s)
    ensures Inv(Step(s, Finish(a)))
  {
    if a in s.activities {
      var act := s.activities[a];
      match act.phase {
        case Skipping => SkipKeepsInv(s, a);
        case Writing(text, vector) =>
          if WriteEmbedding(s, act, text, vector).1.Embedded? {
            EmbedKeepsInv(s, a);
          } else {
            FailedWriteIsQuiet(s, act, text, vector);
            QuietKeepsInv(s, Step(s, Finish(a)));
          }
        case Failing(permanent, message) =>
          FailIsQuiet(s, act, permanent, message);
          QuietKeepsInv(s, Step(s, Finish(a)));
        case _ =>
      }
    }
  }

  lemma ClaimKeepsInv(s: State, ids: set<nat>, at: int, staleAfter: int)
    requires Inv(s)
    ensures Inv(Step(s, Claim(ids, at, staleAfter)))
  {
    QuietKeepsInv(s, Step(s, Claim(ids, at, staleAfter)));
  }

  lemma ReadKeepsInv(s: State, a: nat)
    requires Inv(s)
    ensures Inv(Step(s, Read(a)))
  {
    assert ActivityAt(s, a);
    var s' := Step(s, Read(a));
    assert ActivityAt(s', a);
    QuietKeepsInv(s, s');
  }

  lemma RespondKeepsInv(s: State, a: nat, outcome: Outcome)
    requires Inv(s)
    ensures Inv(Step(s, Respond(a, outcome)))
  {
    assert ActivityAt(s, a);
    var s' := Step(s, Respond(a, outcome));
    assert ActivityAt(s', a);
    QuietKeepsInv(s, s');
  }

  lemma StepKeepsInv(s: State, e: Event)
    requires Inv(s)
    ensures Inv(Step(s, e))
  {
    match e {
      case Write(after, scheduled, at) =>
        if WriteAllowed(s.listings, s.tasks, after, scheduled) {
          forall p ensures WroteAt(s, Step(s, e), p) { WriteReachesProduct(s, after, scheduled, at, p); }
          forall t ensures KeptTask(s, Step(s, e), t) { WriteReachesTask(s, after, scheduled, at, t); }
          WroteKeepsInv(s, Step(s, e));
        }
      case Claim(ids, at, staleAfter) => ClaimKeepsInv(s, ids, at, staleAfter);
      case Begin(_, _, _, _, _, _) => QuietKeepsInv(s, Step(s, e));
      case Read(a) => ReadKeepsInv(s, a);
      case Respond(a, outcome) => RespondKeepsInv(s, a, outcome);
      case Finish(a) => FinishKeepsInv(s, a);
      case Crash(_) => QuietKeepsInv(s, Step(s, e));
    }
  }

  lemma {:induction false} RunKeepsInv(s: State, es: seq<Event>)
    requires Inv(s)
    ensures Inv(Run(s, es))
    decreases |es|
  {
    if es != [] {
      StepKeepsInv(s, es[0]);
      RunKeepsInv(Step(s, es[0]), es[1..]);
    }
  }
}
