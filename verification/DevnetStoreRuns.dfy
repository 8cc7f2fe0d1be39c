/** What every run of repository calls guarantees. */
module DevnetStoreRuns {
  import opened Wrappers
  import opened DevnetLifecycle
  import opened DevnetStore
  import opened DevnetStoreInvariant

  lemma EmptyValid()
    ensures Valid(EMPTY)
  {
  }

  function Run(calls: seq<Call>): Store {
    if calls == [] then EMPTY else Apply(Run(calls[..|calls| - 1]), calls[|calls| - 1])
  }

  /** Every reachable store satisfies the whole invariant. */
  lemma {:induction false} RunValid(calls: seq<Call>)
    ensures Valid(Run(calls))
  {
    if calls == [] { EmptyValid(); }
    else {
      RunValid(calls[..|calls| - 1]);
      ApplyValid(Run(calls[..|calls| - 1]), calls[|calls| - 1]);
    }
  }

  // ---- one state ---------------------------------------------------------------------------------

  ghost predicate Occupies(s: Store, k: Id, e: Id, generation: int) {
    k in s.preparations && s.preparations[k].input.executionId == e
    && s.preparations[k].input.generation == generation
  }

  /** An execution with any preparation has exactly one that is not abandoned, and it is the highest. */
  lemma ExactlyOneLive(s: Store, i: Id)
    requires Valid(s) && i in s.preparations
    ensures var e := s.preparations[i].input.executionId;
            exists k :: k in s.preparations && IsLive(s.preparations[k], e)
              && s.preparations[i].input.actorSubject == s.preparations[k].input.actorSubject
              && s.preparations[i].input.generation <= s.preparations[k].input.generation
              && (forall j :: j in s.preparations && IsLive(s.preparations[j], e) ==> j == k)
  {
    var ps := s.preparations;
    var e := ps[i].input.executionId;
    assert HasHead(ps, i);
    var k :| Heads(ps, k, i);
    forall j | j in ps && IsLive(ps[j], e) ensures j == k { assert SameExecution(ps, j, k); }
    assert SameExecution(ps, i, k);
  }

  /** Its generations are consecutive: from any preparation up to the live one every number is taken once. */
  lemma {:induction false} GenerationsAreConsecutive(s: Store, i: Id, k: Id, generation: int)
    requires Valid(s) && SameExecution(s.preparations, i, k) && !s.preparations[k].state.AbandonedPreContact?
    requires s.preparations[i].input.generation <= generation <= s.preparations[k].input.generation
    ensures exists j :: Occupies(s, j, s.preparations[k].input.executionId, generation)
    ensures forall j, l | Occupies(s, j, s.preparations[k].input.executionId, generation)
                          && Occupies(s, l, s.preparations[k].input.executionId, generation) :: j == l
    decreases generation - s.preparations[i].input.generation
  {
    var ps, e := s.preparations, s.preparations[k].input.executionId;
    if ps[i].input.generation == generation {
      assert Occupies(s, i, e, generation);
    } else {
      assert SameExecution(ps, i, k);
      assert HasNext(ps, i);
      var j :| Supersedes(ps, j, i);
      GenerationsAreConsecutive(s, j, k, generation);
    }
    forall j, l | Occupies(s, j, e, generation) && Occupies(s, l, e, generation) ensures j == l {
      assert SameExecution(ps, j, l);
    }
  }

  /** A commitment exists exactly when the live preparation is past contact, and names its exact bytes. */
  lemma CommitmentIffPastContact(s: Store, k: Id)
    requires Valid(s) && k in s.preparations && !s.preparations[k].state.AbandonedPreContact?
    ensures var p := s.preparations[k];
            p.input.executionId in s.commitments <==> !p.state.PreparedNotContacted?
    ensures var p := s.preparations[k];
            p.input.executionId in s.commitments ==>
              var c := s.commitments[p.input.executionId];
              c.preparationId == k && c.signature == p.input.artifact.signature
              && c.signedTransactionDigest == p.input.artifact.signedTransactionDigest
  {
    var e := s.preparations[k].input.executionId;
    assert CommittedBy(s.preparations, s.commitments, k);
    if e in s.commitments {
      assert Matches(s.preparations, s.commitments, e);
      assert SameExecution(s.preparations, k, s.commitments[e].preparationId);
    }
  }

  function CountR(log: seq<Reconciliation>): nat {
    if log == [] then 0 else CountR(log[..|log| - 1]) + if EndsR(log[|log| - 1]) then 1 else 0
  }

  function CountS(log: seq<SubmissionEvidence>): nat {
    if log == [] then 0 else CountS(log[..|log| - 1]) + if EndsS(log[|log| - 1]) then 1 else 0
  }

  lemma {:induction false} NoneCounted(r: seq<Reconciliation>, s: seq<SubmissionEvidence>)
    ensures (forall i :: 0 <= i < |r| ==> !EndsR(r[i])) ==> CountR(r) == 0
    ensures (forall i :: 0 <= i < |s| ==> !EndsS(s[i])) ==> CountS(s) == 0
    decreases |r| + |s|
  {
    if r != [] { NoneCounted(r[..|r| - 1], []); }
    if s != [] { NoneCounted([], s[..|s| - 1]); }
  }

  ghost predicate Holds(s: Store, e: Id, r: Reconciliation -> bool, t: SubmissionEvidence -> bool) {
    || (exists i :: 0 <= i < |ReconciliationLog(s, e)| && r(ReconciliationLog(s, e)[i]))
    || (exists i :: 0 <= i < |SubmissionLog(s, e)| && t(SubmissionLog(s, e)[i]))
  }

  /** The state is terminal exactly as the two logs say, and they hold at most one terminal observation. */
  lemma StateAgreesWithLogs(s: Store, e: Id)
    requires Valid(s) && e in s.commitments
    ensures s.commitments[e].preparationId in s.preparations
    ensures var p := s.preparations[s.commitments[e].preparationId];
            && (p.state.Settled? <==> Holds(s, e, SettlesR, SettlesS))
            && (p.state.Failed? <==> Holds(s, e, FailsR, FailsS))
            && (p.state.SubmissionCommitted? <==> ReconciliationLog(s, e) == [] && SubmissionLog(s, e) == [])
            && CountR(ReconciliationLog(s, e)) + CountS(SubmissionLog(s, e)) == (if IsTerminal(p.state) then 1 else 0)
  {
    assert LoggedAt(s, e) && Matches(s.preparations, s.commitments, e);
    var p := s.preparations[s.commitments[e].preparationId];
    AgreementSpelledOut(p.state, ReconciliationLog(s, e), SubmissionLog(s, e));
  }

  lemma AgreementSpelledOut(state: LifecycleState, r: seq<Reconciliation>, s: seq<SubmissionEvidence>)
    requires Agrees(state, r, s)
    ensures state.Settled?
            <==> (exists i :: 0 <= i < |r| && SettlesR(r[i])) || (exists i :: 0 <= i < |s| && SettlesS(s[i]))
    ensures state.Failed?
            <==> (exists i :: 0 <= i < |r| && FailsR(r[i])) || (exists i :: 0 <= i < |s| && FailsS(s[i]))
    ensures CountR(r) + CountS(s) == (if IsTerminal(state) then 1 else 0)
  {
    if r != [] { NoneCounted(r[..|r| - 1], []); }
    if s != [] { NoneCounted([], s[..|s| - 1]); }
  }

  /** Logs are numbered 1..n, their ids are distinct, and no entry repeats its predecessor. */
  lemma LogsAreNumbered(s: Store, e: Id, i: nat)
    requires Valid(s) && i < |ReconciliationLog(s, e)|
    ensures ReconciliationLog(s, e)[i].sequence == i + 1
    ensures forall j :: 0 <= j < |ReconciliationLog(s, e)| && j != i ==>
              ReconciliationLog(s, e)[j].evidence.observationId != ReconciliationLog(s, e)[i].evidence.observationId
    ensures i > 0 ==> !SameReconciliation(ReconciliationLog(s, e)[i - 1].evidence, ReconciliationLog(s, e)[i].evidence)
    ensures e in s.commitments && ReconciliationLog(s, e)[i].evidence.signature == s.commitments[e].signature
  {
    assert LoggedAt(s, e) && Matches(s.preparations, s.commitments, e);
  }

  // ---- runs --------------------------------------------------------------------------------------

  ghost predicate KeepsPreparation(s: Store, t: Store, k: Id) {
    k in s.preparations ==>
      && k in t.preparations && t.preparations[k].input == s.preparations[k].input
      && (IsPastContact(s.preparations[k].state) ==> IsPastContact(t.preparations[k].state))
      && (s.preparations[k].state.AbandonedPreContact? || IsTerminal(s.preparations[k].state) ==>
            t.preparations[k] == s.preparations[k])
  }

  ghost predicate KeepsLogs(s: Store, t: Store, e: Id) {
    ReconciliationLog(s, e) <= ReconciliationLog(t, e) && SubmissionLog(s, e) <= SubmissionLog(t, e)
  }

  /** A commitment is permanent, ends preparing, and freezes the logs once the preparation is terminal. */
  ghost predicate KeepsCommitment(s: Store, t: Store, e: Id) {
    e in s.commitments ==>
      && e in t.commitments && t.commitments[e] == s.commitments[e]
      && (forall k :: k in t.preparations && t.preparations[k].input.executionId == e ==> k in s.preparations)
      && (s.commitments[e].preparationId in s.preparations
          && IsTerminal(s.preparations[s.commitments[e].preparationId].state) ==>
            ReconciliationLog(t, e) == ReconciliationLog(s, e) && SubmissionLog(t, e) == SubmissionLog(s, e))
  }

  ghost predicate Extends(s: Store, t: Store) {
    && (forall k {:trigger KeepsPreparation(s, t, k)} :: KeepsPreparation(s, t, k))
    && (forall e {:trigger KeepsLogs(s, t, e)} :: KeepsLogs(s, t, e))
    && (forall e {:trigger KeepsCommitment(s, t, e)} :: KeepsCommitment(s, t, e))
  }

  lemma ExtendsSelf(s: Store)
    ensures Extends(s, s)
  {
  }

  /** A fresh preparation disturbs nothing, unless its execution were committed already. */
  lemma InsertExtends(s: Store, p: Preparation)
    requires p.input.preparationId !in s.preparations && p.input.executionId !in s.commitments
    ensures Extends(s, Insert(s, p))
  {
  }

  lemma AbandonExtends(s: Store, prior: Id, at: Timestamp)
    requires prior in s.preparations && s.preparations[prior].input.preparationId == prior
    requires s.preparations[prior].state.PreparedNotContacted?
    requires s.preparations[prior].input.executionId !in s.commitments
    ensures Extends(s, Update(s, Abandoned(s.preparations[prior], at)))
  {
  }

  /** Restating a preparation that is not terminal, with logs of its execution that only grow. */
  lemma RestateExtends(s: Store, t: Store, q: Preparation)
    requires q.input.preparationId in s.preparations && s.preparations[q.input.preparationId].input == q.input
    requires IsPastContact(q.state) && !s.preparations[q.input.preparationId].state.AbandonedPreContact?
    requires !IsTerminal(s.preparations[q.input.preparationId].state)
    requires t.preparations == s.preparations[q.input.preparationId := q]
    requires forall e :: e in s.commitments ==> e in t.commitments && t.commitments[e] == s.commitments[e]
    requires forall e :: KeepsLogs(s, t, e)
    requires forall e :: e != q.input.executionId ==>
               ReconciliationLog(t, e) == ReconciliationLog(s, e) && SubmissionLog(t, e) == SubmissionLog(s, e)
    requires q.input.executionId in s.commitments ==>
               s.commitments[q.input.executionId].preparationId == q.input.preparationId
    ensures Extends(s, t)
  {
    forall e ensures KeepsCommitment(s, t, e) {}
  }

  lemma NoCommitmentWithoutPreparation(s: Store, e: Id)
    requires Valid(s) && forall k :: k in s.preparations ==> s.preparations[k].input.executionId != e
    ensures e !in s.commitments
  {
    assert e in s.commitments ==> Matches(s.preparations, s.commitments, e);
  }

  lemma PersistExtends(s: Store, input: PreparationInput)
    requires Valid(s)
    ensures Extends(s, PersistPreparation(s, input).0)
  {
    if PersistPreparation(s, input).1.Ok? {
      NoConflictInStore(s, input);
      ActiveIsTheLiveOne(s, input.executionId);
      NoCommitmentWithoutPreparation(s, input.executionId);
      InsertExtends(s, Fresh(input));
    }
  }

  lemma ReplaceExtends(s: Store, priorId: Id, input: PreparationInput, at: Timestamp)
    requires Valid(s)
    ensures Extends(s, ReplaceExpiredPreparation(s, priorId, input, at).0)
  {
    var t := ReplaceExpiredPreparation(s, priorId, input, at).0;
    if t == s {
      ExtendsSelf(s);
    } else {
      NoConflictInStore(s, input);
      AbandonThenInsertExtends(s, priorId, at, Fresh(input));
    }
  }

  lemma AbandonThenInsertExtends(s: Store, prior: Id, at: Timestamp, p: Preparation)
    requires Valid(s) && prior in s.preparations && s.preparations[prior].state.PreparedNotContacted?
    requires p.input.executionId == s.preparations[prior].input.executionId && p.input.executionId !in s.commitments
    requires p.input.preparationId !in s.preparations
    ensures Extends(s, Insert(Update(s, Abandoned(s.preparations[prior], at)), p))
  {
    var t := Update(s, Abandoned(s.preparations[prior], at));
    AbandonExtends(s, prior, at);
    InsertExtends(t, p);
    ExtendsTransitive(s, t, Insert(t, p));
  }

  lemma CommitExtends(s: Store, r: CommitRequest)
    requires Valid(s)
    ensures Extends(s, CommitSubmission(s, r).0)
  {
    var (t, reply) := CommitSubmission(s, r);
    if reply.Ok? && reply.value.submissionAuthorized { RestateExtends(s, t, reply.value.preparation); }
  }

  lemma ReconcileExtends(s: Store, v: ReconciliationEvidence, fence: Fence)
    requires Valid(s)
    ensures Extends(s, RecordReconciliation(s, v, fence).0)
  {
    if RecordReconciliation(s, v, fence).0 != s {
      ReconcileEffect(s, v, fence);
      ReconciledExtends(s, v);
    }
  }

  lemma ReconciledExtends(s: Store, v: ReconciliationEvidence)
    requires Valid(s) && MayReconcile(s, v)
    ensures Extends(s, Reconciled(s, v))
  {
    RecordedIsCommitted(s, v.preparationId, v.executionId);
    RestateExtends(s, Reconciled(s, v), Reconciled(s, v).preparations[v.preparationId]);
  }

  lemma SubmitExtends(s: Store, v: SubmissionEvidence, actor: Id)
    requires Valid(s)
    ensures Extends(s, RecordSubmission(s, v, actor).0)
  {
    if RecordSubmission(s, v, actor).0 != s {
      SubmitEffect(s, v, actor);
      SubmittedExtends(s, v);
    }
  }

  lemma SubmittedExtends(s: Store, v: SubmissionEvidence)
    requires Valid(s) && MaySubmit(s, v)
    ensures Extends(s, Submitted(s, v))
  {
    assert CommittedBy(s.preparations, s.commitments, v.preparationId);
    RestateExtends(s, Submitted(s, v), Submitted(s, v).preparations[v.preparationId]);
  }

  lemma ApplyExtends(s: Store, c: Call)
    requires Valid(s)
    ensures Extends(s, Apply(s, c))
  {
    match c
    case Persist(input) => PersistExtends(s, input);
    case ReplaceExpired(id, input, at) => ReplaceExtends(s, id, input, at);
    case Commit(r) => CommitExtends(s, r);
    case Reconcile(v, fence) => ReconcileExtends(s, v, fence);
    case Submit(v, actor) => SubmitExtends(s, v, actor);
  }

  lemma ExtendsTransitive(s: Store, t: Store, u: Store)
    requires Valid(s) && Extends(s, t) && Extends(t, u)
    ensures Extends(s, u)
  {
    forall k ensures KeepsPreparation(s, u, k) {
      assert KeepsPreparation(s, t, k) && KeepsPreparation(t, u, k);
    }
    forall e ensures KeepsLogs(s, u, e) {
      assert KeepsLogs(s, t, e) && KeepsLogs(t, u, e);
    }
    forall e ensures KeepsCommitment(s, u, e) { CommitmentTransitive(s, t, u, e); }
  }

  lemma CommitmentTransitive(s: Store, t: Store, u: Store, e: Id)
    requires Valid(s) && Extends(s, t) && Extends(t, u)
    ensures KeepsCommitment(s, u, e)
  {
    assert KeepsCommitment(s, t, e) && KeepsCommitment(t, u, e);
    if e in s.commitments {
      assert KeepsPreparation(s, t, s.commitments[e].preparationId);
      forall k | k in u.preparations && u.preparations[k].input.executionId == e ensures k in s.preparations {
        assert KeepsPreparation(t, u, k);
      }
    }
  }

  /**
   Whatever calls follow: preparations keep their identity and artifact, abandoned and terminal ones never
   change, logs only grow, commitments are permanent, a committed execution gets no further preparation,
   and the logs of a terminal one are frozen.
   */
  lemma {:induction false} RunExtends(calls: seq<Call>, more: seq<Call>)
    ensures Extends(Run(calls), Run(calls + more))
  {
    if more == [] {
      assert calls + more == calls;
      ExtendsSelf(Run(calls));
    } else {
      var front, last := more[..|more| - 1], more[|more| - 1];
      RunExtends(calls, front);
      StepExtends(calls + front, last);
      RunValid(calls);
      ExtendsTransitive(Run(calls), Run(calls + front), Run(calls + front + [last]));
      SplitLast(calls, more);
    }
  }

  lemma SplitLast(calls: seq<Call>, more: seq<Call>)
    requires more != []
    ensures calls + more == calls + more[..|more| - 1] + [more[|more| - 1]]
  {
  }

  lemma StepExtends(calls: seq<Call>, c: Call)
    ensures Run(calls + [c]) == Apply(Run(calls), c) && Extends(Run(calls), Run(calls + [c]))
  {
    assert (calls + [c])[..|calls + [c]| - 1] == calls;
    RunValid(calls);
    ApplyExtends(Run(calls), c);
  }

  /** Calls that are answered from what is stored already. */
  predicate Repeats(s: Store, c: Call) {
    match c
    case Commit(r) => r.executionId in s.commitments
    case Reconcile(v, _) =>
      var log := ReconciliationLog(s, v.executionId);
      log != [] && v.preparationId in s.preparations
      && (IsTerminal(s.preparations[v.preparationId].state) || SameReconciliation(log[|log| - 1].evidence, v))
    case _ => false
  }

  /** A call leaves the store as it was exactly when it is refused or answered from what is stored already. */
  lemma UnchangedIff(s: Store, c: Call)
    requires Valid(s)
    ensures Apply(s, c) == s <==> Refused(s, c) || Repeats(s, c)
  {
    match c
    case Persist(input) =>
      if !Refused(s, c) { NoConflictInStore(s, input); assert input.preparationId in Apply(s, c).preparations; }
    case ReplaceExpired(_, input, _) =>
      if !Refused(s, c) { NoConflictInStore(s, input); assert input.preparationId in Apply(s, c).preparations; }
    case Commit(r) => CommitUnchangedIff(s, r);
    case Reconcile(v, fence) => ReconcileUnchangedIff(s, v, fence);
    case Submit(v, actor) => SubmitUnchangedIff(s, v, actor);
  }

  lemma CommitUnchangedIff(s: Store, r: CommitRequest)
    requires Valid(s)
    ensures CommitSubmission(s, r).0 == s <==> CommitSubmission(s, r).1.Err? || r.executionId in s.commitments
  {
    if CommitSubmission(s, r).1.Ok? { assert r.executionId in CommitSubmission(s, r).0.commitments; }
  }

  lemma ReconcileUnchangedIff(s: Store, v: ReconciliationEvidence, fence: Fence)
    ensures RecordReconciliation(s, v, fence).0 == s
            <==> RecordReconciliation(s, v, fence).1.Err? || Repeats(s, Reconcile(v, fence))
  {
    var t := RecordReconciliation(s, v, fence).0;
    if RecordReconciliation(s, v, fence).1.Ok? && !Repeats(s, Reconcile(v, fence)) {
      assert |ReconciliationLog(t, v.executionId)| == |ReconciliationLog(s, v.executionId)| + 1;
    }
  }

  lemma SubmitUnchangedIff(s: Store, v: SubmissionEvidence, actor: Id)
    ensures RecordSubmission(s, v, actor).0 == s <==> RecordSubmission(s, v, actor).1.Err?
  {
    var t := RecordSubmission(s, v, actor).0;
    if RecordSubmission(s, v, actor).1.Ok? {
      assert |SubmissionLog(t, v.executionId)| == |SubmissionLog(s, v.executionId)| + 1;
    }
  }

  /** When the latest entry shows the same, the call answers with it and stores nothing. */
  lemma LatestAnswers(t: Store, w: ReconciliationEvidence, fence: Fence)
    requires ReconciliationRefusal(w, fence).None? && w.preparationId in t.preparations
    requires var p := t.preparations[w.preparationId];
             p.input.executionId == w.executionId && p.input.actorSubject == w.actorSubject
             && w.providerId == p.input.artifact.reconciliationProviderId
             && w.executionId in t.commitments
             && w.signature == p.input.artifact.signature == t.commitments[w.executionId].signature
    requires var log := ReconciliationLog(t, w.executionId);
             log != [] && (IsTerminal(t.preparations[w.preparationId].state)
                           || SameReconciliation(log[|log| - 1].evidence, w))
    ensures var log := ReconciliationLog(t, w.executionId);
            RecordReconciliation(t, w, fence) ==
            (t, Ok(ReconciliationReply(t.preparations[w.preparationId], log[|log| - 1])))
  {
  }

  /** A stored reconciliation observation ends its log, for the committed preparation it is about. */
  lemma ReconciledIsLatest(s: Store, v: ReconciliationEvidence, fence: Fence)
    requires Valid(s) && RecordReconciliation(s, v, fence).0 != s
    ensures var t := RecordReconciliation(s, v, fence).0;
            var log := ReconciliationLog(t, v.executionId);
            && log != [] && log[|log| - 1].evidence == v
            && v.preparationId in t.preparations && v.executionId in t.commitments
            && var p := t.preparations[v.preparationId].input;
               && p.executionId == v.executionId && p.actorSubject == v.actorSubject
               && v.providerId == p.artifact.reconciliationProviderId
               && v.signature == p.artifact.signature == t.commitments[v.executionId].signature
  {
    ReconcileEffect(s, v, fence);
  }

  /**
   Polling an unchanged chain again, whatever other calls came in between, answers with the recorded observation
   and stores nothing.
   */
  lemma RepeatedPollingIsIdempotent(calls: seq<Call>, v: ReconciliationEvidence, fence: Fence, more: seq<Call>,
                                    w: ReconciliationEvidence, again: Fence)
    requires RecordReconciliation(Run(calls), v, fence).0 != Run(calls)
    requires ReconciliationLog(Run(calls + [Reconcile(v, fence)] + more), v.executionId)
             == ReconciliationLog(Run(calls + [Reconcile(v, fence)]), v.executionId)
    requires SameReconciliation(v, w) && w.executionId == v.executionId && w.preparationId == v.preparationId
    requires w.actorSubject == v.actorSubject && ReconciliationRefusal(w, again).None?
    ensures var u := Run(calls + [Reconcile(v, fence)] + more);
            && RecordReconciliation(u, w, again).0 == u && RecordReconciliation(u, w, again).1.Ok?
            && RecordReconciliation(u, w, again).1.value.observation.evidence == v
  {
    var stored := calls + [Reconcile(v, fence)];
    var t, u := Run(stored), Run(stored + more);
    RunValid(calls);
    StepExtends(calls, Reconcile(v, fence));
    ReconciledIsLatest(Run(calls), v, fence);
    RunExtends(stored, more);
    LaterAnswers(t, u, v, w, again);
  }

  lemma LaterAnswers(t: Store, u: Store, v: ReconciliationEvidence, w: ReconciliationEvidence, again: Fence)
    requires Extends(t, u) && ReconciliationLog(u, v.executionId) == ReconciliationLog(t, v.executionId)
    requires var log := ReconciliationLog(t, v.executionId); log != [] && log[|log| - 1].evidence == v
    requires v.preparationId in t.preparations && v.executionId in t.commitments
    requires var p := t.preparations[v.preparationId].input;
             && p.executionId == v.executionId && p.actorSubject == v.actorSubject
             && v.providerId == p.artifact.reconciliationProviderId
             && v.signature == p.artifact.signature == t.commitments[v.executionId].signature
    requires SameReconciliation(v, w) && w.executionId == v.executionId && w.preparationId == v.preparationId
    requires w.actorSubject == v.actorSubject && ReconciliationRefusal(w, again).None?
    ensures RecordReconciliation(u, w, again).0 == u && RecordReconciliation(u, w, again).1.Ok?
    ensures RecordReconciliation(u, w, again).1.value.observation.evidence == v
  {
    assert KeepsPreparation(t, u, v.preparationId) && KeepsCommitment(t, u, v.executionId);
    LatestAnswers(u, w, again);
  }
}
