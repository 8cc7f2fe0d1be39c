/**
 Which of the two open states a committed execution stands in: over every run of repository calls it is pending
 exactly when its last word that was not itself uncertain said so.
 */
module DevnetStanding {
  import opened Wrappers
  import opened DevnetLifecycle
  import opened DevnetStore
  import opened DevnetStoreInvariant
  import opened DevnetStoreRuns

  /** The state of the committed preparation of an execution. */
  function StandingOf(s: Store, e: Id): Option<LifecycleState> {
    if e in s.commitments && s.commitments[e].preparationId in s.preparations
    then Some(s.preparations[s.commitments[e].preparationId].state) else None
  }

  /** The call is recorded for the execution. */
  predicate RecordsFor(s: Store, c: Call, e: Id) {
    Apply(s, c) != s && ((c.Reconcile? && c.evidence.executionId == e) || (c.Submit? && c.submission.executionId == e))
  }

  /** It reports a pending transaction, or an accepted submission. */
  predicate Acknowledges(s: Store, c: Call, e: Id) {
    RecordsFor(s, c, e)
    && if c.Reconcile? then c.evidence.outcome.ObservedPending?
       else c.Submit? && c.submission.outcome.SubmissionAccepted?
  }

  /** A submission whose own outcome is not known: it takes back nothing. */
  predicate Uncertain(s: Store, c: Call, e: Id) {
    RecordsFor(s, c, e) && c.Submit?
    && (c.submission.outcome.SubmissionUnknown? || c.submission.outcome.ValidationFailed?)
  }

  /** The last record that was not an uncertain submission acknowledges. */
  ghost predicate Acknowledged(calls: seq<Call>, e: Id) {
    exists n: nat :: n < |calls| && AcknowledgedAt(calls, n, e)
  }

  ghost predicate AcknowledgedAt(calls: seq<Call>, n: nat, e: Id)
    requires n < |calls|
  {
    Acknowledges(Run(calls[..n]), calls[n], e)
    && forall m: nat {:trigger Harmless(calls, m, e)} :: n < m < |calls| ==> Harmless(calls, m, e)
  }

  predicate Harmless(calls: seq<Call>, m: nat, e: Id)
    requires m < |calls|
  {
    RecordsFor(Run(calls[..m]), calls[m], e) ==> Uncertain(Run(calls[..m]), calls[m], e)
  }

  // ---- one call ------------------------------------------------------------------------------------------

  /** What the call must make of the standing. */
  ghost predicate Decides(s: Store, c: Call, e: Id) {
    StandingOf(Apply(s, c), e) == Some(AcceptedPending) <==>
      Acknowledges(s, c, e)
      || (StandingOf(s, e) == Some(AcceptedPending) && (RecordsFor(s, c, e) ==> Uncertain(s, c, e)))
  }

  /** Pending after a call: the call acknowledges, or it stood so before and the call records nothing certain. */
  lemma CallDecidesStanding(s: Store, c: Call, e: Id)
    requires Valid(s)
    ensures Decides(s, c, e)
  {
    match c
    case Reconcile(v, fence) => ObservationStands(s, v, fence, e);
    case Submit(v, actor) => SubmissionStands(s, v, actor, e);
    case _ => OthersDecideNothing(s, c, e);
  }

  lemma ObservationStands(s: Store, v: ReconciliationEvidence, fence: Fence, e: Id)
    requires Valid(s)
    ensures Decides(s, Reconcile(v, fence), e)
  {
    ObservationDecides(s, v, fence, e);
  }

  lemma SubmissionStands(s: Store, v: SubmissionEvidence, actor: Id, e: Id)
    requires Valid(s)
    ensures Decides(s, Submit(v, actor), e)
  {
    SubmissionDecides(s, v, actor, e);
  }

  lemma ObservationDecides(s: Store, v: ReconciliationEvidence, fence: Fence, e: Id)
    requires Valid(s)
    ensures var t := RecordReconciliation(s, v, fence).0;
            if t != s && v.executionId == e
            then StandingOf(s, e).Some? && StandingOf(t, e).Some?
                 && ReconciliationLifecycle(StandingOf(s, e).value, v.outcome) == Ok(StandingOf(t, e).value)
            else StandingOf(t, e) == StandingOf(s, e)
  {
    if RecordReconciliation(s, v, fence).0 != s {
      ReconcileEffect(s, v, fence);
      RecordedIsCommitted(s, v.preparationId, v.executionId);
      if e in s.commitments { assert Matches(s.preparations, s.commitments, e); }
    }
  }

  lemma SubmissionDecides(s: Store, v: SubmissionEvidence, actor: Id, e: Id)
    requires Valid(s)
    ensures var t := RecordSubmission(s, v, actor).0;
            if t != s && v.executionId == e
            then StandingOf(s, e).Some? && StandingOf(t, e).Some?
                 && SubmissionLifecycle(StandingOf(s, e).value, v.outcome) == Ok(StandingOf(t, e).value)
            else StandingOf(t, e) == StandingOf(s, e)
  {
    if RecordSubmission(s, v, actor).0 != s {
      SubmitEffect(s, v, actor);
      assert CommittedBy(s.preparations, s.commitments, v.preparationId);
      if e in s.commitments { assert Matches(s.preparations, s.commitments, e); }
    }
  }

  lemma OthersDecideNothing(s: Store, c: Call, e: Id)
    requires Valid(s) && !c.Reconcile? && !c.Submit?
    ensures StandingOf(Apply(s, c), e) == StandingOf(s, e)
            || (StandingOf(s, e).None? && StandingOf(Apply(s, c), e) == Some(SubmissionCommitted))
  {
    if e in s.commitments { assert Matches(s.preparations, s.commitments, e); }
    match c
    case Commit(r) => CommitDecidesNothing(s, r, e);
    case Persist(input) => if Apply(s, c) != s { NoConflictInStore(s, input); }
    case ReplaceExpired(priorId, input, at) => if Apply(s, c) != s { NoConflictInStore(s, input); }
  }

  lemma CommitDecidesNothing(s: Store, r: CommitRequest, e: Id)
    requires Valid(s)
    ensures StandingOf(CommitSubmission(s, r).0, e) == StandingOf(s, e)
            || (StandingOf(s, e).None? && StandingOf(CommitSubmission(s, r).0, e) == Some(SubmissionCommitted))
  {
    if e in s.commitments { assert Matches(s.preparations, s.commitments, e); }
  }

  // ---- every run -----------------------------------------------------------------------------------------

  lemma LastCallAcknowledges(calls: seq<Call>, e: Id)
    requires calls != []
    ensures var n := |calls| - 1;
            Acknowledged(calls, e) <==> Acknowledges(Run(calls[..n]), calls[n], e)
                                        || (Acknowledged(calls[..n], e) && Harmless(calls, n, e))
  {
    var n := |calls| - 1;
    assert AcknowledgedAt(calls, n, e) <==> Acknowledges(Run(calls[..n]), calls[n], e);
    forall m: nat | m < n
      ensures AcknowledgedAt(calls, m, e) <==> AcknowledgedAt(calls[..n], m, e) && Harmless(calls, n, e)
    {
      EarlierAcknowledges(calls, m, e);
    }
  }

  lemma EarlierAcknowledges(calls: seq<Call>, m: nat, e: Id)
    requires m < |calls| - 1
    ensures AcknowledgedAt(calls, m, e)
            <==> AcknowledgedAt(calls[..|calls| - 1], m, e) && Harmless(calls, |calls| - 1, e)
  {
    var front := calls[..|calls| - 1];
    FrontAgrees(calls, m, e);
    if AcknowledgedAt(calls, m, e) { FrontAcknowledges(calls, m, e); }
    if AcknowledgedAt(front, m, e) && Harmless(calls, |calls| - 1, e) { WholeAcknowledges(calls, m, e); }
  }

  lemma FrontAcknowledges(calls: seq<Call>, m: nat, e: Id)
    requires m < |calls| - 1 && AcknowledgedAt(calls, m, e)
    ensures AcknowledgedAt(calls[..|calls| - 1], m, e) && Harmless(calls, |calls| - 1, e)
  {
    var front := calls[..|calls| - 1];
    FrontAgrees(calls, m, e);
    forall k: nat | m < k < |front| ensures Harmless(front, k, e) { FrontAgrees(calls, k, e); }
  }

  lemma WholeAcknowledges(calls: seq<Call>, m: nat, e: Id)
    requires m < |calls| - 1 && AcknowledgedAt(calls[..|calls| - 1], m, e) && Harmless(calls, |calls| - 1, e)
    ensures AcknowledgedAt(calls, m, e)
  {
    FrontAgrees(calls, m, e);
    forall k: nat | m < k < |calls| ensures Harmless(calls, k, e) {
      if k < |calls| - 1 { FrontAgrees(calls, k, e); }
    }
  }

  lemma FrontAgrees(calls: seq<Call>, k: nat, e: Id)
    requires k < |calls| - 1
    ensures calls[..|calls| - 1][..k] == calls[..k] && calls[..|calls| - 1][k] == calls[k]
    ensures Harmless(calls[..|calls| - 1], k, e) <==> Harmless(calls, k, e)
  {
    var front := calls[..|calls| - 1];
    var s, c := Run(calls[..k]), calls[k];
    assert front[..k] == calls[..k] && front[k] == c;
    assert Harmless(front, k, e) <==> (RecordsFor(s, c, e) ==> Uncertain(s, c, e));
  }

  /**
   Over every run a committed execution is pending exactly when a pending observation or an accepted submission was
   recorded for it, and nothing since but submissions whose outcome is itself unknown.
   */
  lemma {:induction false} PendingIffAcknowledged(calls: seq<Call>, e: Id)
    ensures StandingOf(Run(calls), e) == Some(AcceptedPending) <==> Acknowledged(calls, e)
  {
    if calls != [] {
      var n := |calls| - 1;
      PendingIffAcknowledged(calls[..n], e);
      RunValid(calls[..n]);
      CallDecidesStanding(Run(calls[..n]), calls[n], e);
      LastCallAcknowledges(calls, e);
    }
  }

  /** The five states of a committed execution, each from what was recorded for it. */
  lemma StandingFromRecords(calls: seq<Call>, e: Id)
    requires e in Run(calls).commitments
    ensures var s := Run(calls);
            && StandingOf(s, e).Some?
            && (StandingOf(s, e).value.SubmissionCommitted? <==>
                  ReconciliationLog(s, e) == [] && SubmissionLog(s, e) == [])
            && (StandingOf(s, e).value.Settled? <==> Ended(s, e, SettlesR, SettlesS))
            && (StandingOf(s, e).value.Failed? <==> Ended(s, e, FailsR, FailsS))
            && (StandingOf(s, e).value.AcceptedPending? <==> Acknowledged(calls, e))
            && (StandingOf(s, e).value.UnknownReconciliationRequired? <==>
                  && !(ReconciliationLog(s, e) == [] && SubmissionLog(s, e) == []) && !Acknowledged(calls, e)
                  && !Ended(s, e, SettlesR, SettlesS) && !Ended(s, e, FailsR, FailsS))
  {
    var s := Run(calls);
    RunValid(calls);
    PendingIffAcknowledged(calls, e);
    assert Matches(s.preparations, s.commitments, e) && LoggedAt(s, e);
  }

  ghost predicate Ended(s: Store, e: Id, r: Reconciliation -> bool, t: SubmissionEvidence -> bool) {
    LastR(ReconciliationLog(s, e), r) || LastS(SubmissionLog(s, e), t)
  }
}
