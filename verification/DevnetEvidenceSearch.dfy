/**
 Which stored observation a finished execution is reported with: by the browser projection, which searches
 both logs, and by the reconciliation service, which takes the latest reconciliation observation.
 */
module DevnetEvidenceSearch {
  import opened Wrappers
  import opened DevnetLifecycle
  import opened DevnetStore
  import opened DevnetStoreInvariant
  import opened DevnetStoreRuns

  datatype TerminalEvidence =
    | ByReconciliation(reconciliation: Reconciliation)
    | BySubmission(submission: SubmissionEvidence)

  /** `[...log].reverse().find(...)`: the latest settled or failed reconciliation. */
  function LatestReconciliation(log: seq<Reconciliation>): Option<Reconciliation> {
    if log == [] then None
    else if EndsR(log[|log| - 1]) then Some(log[|log| - 1])
    else LatestReconciliation(log[..|log| - 1])
  }

  /** The latest submission that settled, was rejected or failed validation. */
  function LatestSubmission(log: seq<SubmissionEvidence>): Option<SubmissionEvidence> {
    if log == [] then None
    else if EndsS(log[|log| - 1]) || log[|log| - 1].outcome.ValidationFailed? then Some(log[|log| - 1])
    else LatestSubmission(log[..|log| - 1])
  }

  function SearchEvidence(r: seq<Reconciliation>, s: seq<SubmissionEvidence>): Option<TerminalEvidence> {
    match LatestReconciliation(r)
    case Some(o) => Some(ByReconciliation(o))
    case None =>
      match LatestSubmission(s)
      case Some(o) => Some(BySubmission(o))
      case None => None
  }

  predicate ShowsSettled(v: TerminalEvidence) {
    match v
    case ByReconciliation(o) => SettlesR(o)
    case BySubmission(o) => SettlesS(o)
  }

  predicate ShowsFailed(v: TerminalEvidence) {
    match v
    case ByReconciliation(o) => FailsR(o)
    case BySubmission(o) => FailsS(o)
  }

  lemma {:induction false} NoEndNoReconciliation(log: seq<Reconciliation>)
    requires forall i :: 0 <= i < |log| ==> !EndsR(log[i])
    ensures LatestReconciliation(log).None?
  {
    if log != [] { NoEndNoReconciliation(log[..|log| - 1]); }
  }

  lemma SearchAgrees(state: LifecycleState, r: seq<Reconciliation>, s: seq<SubmissionEvidence>)
    requires Agrees(state, r, s) && IsTerminal(state)
    ensures SearchEvidence(r, s).Some?
    ensures state.Settled? <==> ShowsSettled(SearchEvidence(r, s).value)
    ensures state.Failed? <==> ShowsFailed(SearchEvidence(r, s).value)
  {
    if !LastR(r, EndsR) { NoEndNoReconciliation(r); }
  }

  /** In every terminal state the search finds evidence, and it shows the outcome the state records. */
  lemma StoredEvidenceIsFound(s: Store, p: Preparation)
    requires Valid(s) && p.input.preparationId in s.preparations && s.preparations[p.input.preparationId] == p
    requires IsTerminal(p.state)
    ensures var e := p.input.executionId;
            var found := SearchEvidence(ReconciliationLog(s, e), SubmissionLog(s, e));
            found.Some? && (p.state.Settled? <==> ShowsSettled(found.value))
            && (p.state.Failed? <==> ShowsFailed(found.value))
    ensures p.input.executionId in s.commitments
            && s.commitments[p.input.executionId].preparationId == p.input.preparationId
  {
    assert CommittedBy(s.preparations, s.commitments, p.input.preparationId);
    assert LoggedAt(s, p.input.executionId);
    SearchAgrees(p.state, ReconciliationLog(s, p.input.executionId), SubmissionLog(s, p.input.executionId));
  }

  lemma OwnerIsShown(s: Store, p: Preparation)
    requires Valid(s) && p.input.preparationId in s.preparations && s.preparations[p.input.preparationId] == p
    requires IsTerminal(p.state)
    ensures var e, actor := p.input.executionId, p.input.actorSubject;
            && ListReconciliations(s, e, actor) == ReconciliationLog(s, e)
            && ListSubmissions(s, e, actor) == SubmissionLog(s, e)
  {
    ActiveIsTheLiveOne(s, p.input.executionId);
  }

  /**
   The projection reads the preparation and the two logs at three moments of a run. If the preparation was
   terminal, the search finds evidence all the same, and it shows the outcome the preparation records.
   */
  lemma TerminalEvidenceIsFound(calls: seq<Call>, later: seq<Call>, latest: seq<Call>, e: Id, actor: Id)
    requires FindPreparation(Run(calls), e, actor).Some?
    requires IsTerminal(FindPreparation(Run(calls), e, actor).value.state)
    ensures var p := FindPreparation(Run(calls), e, actor).value;
            var found := SearchEvidence(ListReconciliations(Run(calls + later), e, actor),
                                        ListSubmissions(Run(calls + later + latest), e, actor));
            found.Some? && (p.state.Settled? <==> ShowsSettled(found.value))
            && (p.state.Failed? <==> ShowsFailed(found.value))
  {
    var p := FindPreparation(Run(calls), e, actor).value;
    RunValid(calls);
    ActiveIsTheLiveOne(Run(calls), e);
    StoredEvidenceIsFound(Run(calls), p);
    LogsStayShown(calls, later, p);
    LogsStayShown(calls, later + latest, p);
    assert calls + (later + latest) == calls + later + latest;
  }

  lemma LogsStayShown(calls: seq<Call>, more: seq<Call>, p: Preparation)
    requires Valid(Run(calls)) && p.input.preparationId in Run(calls).preparations
    requires Run(calls).preparations[p.input.preparationId] == p && IsTerminal(p.state)
    ensures var s, t, e, actor := Run(calls), Run(calls + more), p.input.executionId, p.input.actorSubject;
            && ListReconciliations(t, e, actor) == ReconciliationLog(s, e)
            && ListSubmissions(t, e, actor) == SubmissionLog(s, e)
  {
    StoredEvidenceIsFound(Run(calls), p);
    RunExtends(calls, more);
    RunValid(calls + more);
    assert KeepsPreparation(Run(calls), Run(calls + more), p.input.preparationId);
    assert KeepsCommitment(Run(calls), Run(calls + more), p.input.executionId);
    OwnerIsShown(Run(calls + more), p);
  }

  // ---- the reconciliation service's own answer for a finished execution -------------------------------

  /** The latest reconciliation observation, or the error that evidence is missing. */
  function ServiceEvidence(r: seq<Reconciliation>): Option<Reconciliation> {
    if r == [] then None else Some(r[|r| - 1])
  }

  predicate Supports(state: LifecycleState, o: Option<Reconciliation>) {
    o.Some? && (state.Settled? ==> SettlesR(o.value)) && (state.Failed? ==> FailsR(o.value))
  }

  /**
   The service's evidence supports a terminal state exactly when the submission log does not end in a
   settled or rejected submission.
   */
  lemma ServiceEvidenceSupports(s: Store, e: Id)
    requires Valid(s) && e in s.commitments && s.commitments[e].preparationId in s.preparations
    requires IsTerminal(s.preparations[s.commitments[e].preparationId].state)
    ensures Supports(s.preparations[s.commitments[e].preparationId].state, ServiceEvidence(ReconciliationLog(s, e)))
            <==> !LastS(SubmissionLog(s, e), EndsS)
  {
    assert LoggedAt(s, e);
  }
}
