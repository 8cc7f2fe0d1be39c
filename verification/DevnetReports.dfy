/**
 Where every recorded observation comes from: over every interleaving and every crash it is what one poll of the
 reconciliation provider answered about the committed signature, kept unchanged until it was stored.
 */
module DevnetReports {
  import opened Wrappers
  import opened DevnetLifecycle
  import opened DevnetStore
  import opened DevnetStoreInvariant
  import opened DevnetObservation
  import opened DevnetProtocol
  import opened DevnetSafety

  /** The answer is an observation of that signature by that provider which is sound in itself. */
  predicate Reliable(answer: ProviderAnswer, subject: Subject) {
    && answer.Answered? && answer.observation.signature == subject.signature && answer.observation.historySearched
    && answer.observation.providerId == subject.providerId && ValidSignatureSemantics(answer.observation)
  }

  /** A sound sighting is recorded as it is; everything else is an unknown outcome at the service's own time. */
  predicate Attests(answer: ProviderAnswer, subject: Subject, now: Timestamp, v: ReconciliationEvidence) {
    if Reliable(answer, subject) && !answer.observation.status.StatusMissing? then
      var o := answer.observation;
      && v.slot == o.slot && v.confirmationStatus == o.confirmationStatus && v.observedAt == o.observedAt
      && (v.outcome.ObservedPending? <==> o.status.StatusPending?)
      && (v.outcome.ObservedSettled? <==> o.status.StatusSettled?)
      && (v.outcome.ObservedFailed? <==> o.status.StatusFailed?)
      && v.errorCode == if o.status.StatusFailed? then Some("PROVIDER_REPORTED_FAILURE") else None
    else
      && v.outcome.ObservedUnknown? && v.slot.None? && v.confirmationStatus.None? && v.observedAt == now
      && v.errorCode == Some(
           if answer.Threw? then ReconciliationErrorCode(answer.error)
           else if !ValidSignatureIdentity(answer.observation, subject.signature, subject.providerId) then
             "RPC_PROVIDER_MISMATCH"
           else if !ValidSignatureSemantics(answer.observation) then "RPC_INVALID_RESPONSE"
           else "SIGNATURE_STATUS_MISSING")
  }

  /** The step gives a poll its answer, under a lease that was still held. */
  predicate Hears(sys: System, step: Step, v: ReconciliationEvidence) {
    && step.Resume? && step.pid in sys.processes && sys.processes[step.pid].ReconcilePolling? && step.event.leaseHeld
    && var subject := sys.processes[step.pid].subject;
       && v.executionId == subject.executionId && v.actorSubject == subject.actorSubject
       && v.preparationId == subject.preparationId && v.providerId == subject.providerId
       && v.signature == subject.signature && v.observationId == step.event.observationId
       && Attests(step.event.polled, subject, step.event.now, v)
  }

  lemma PollAttests(answer: ProviderAnswer, subject: Subject, id: Id, now: Timestamp)
    ensures Attests(answer, subject, now, EvidenceFor(answer, subject, id, now))
    ensures EvidenceFor(answer, subject, id, now).signature == subject.signature
  {
  }

  // ---- one step --------------------------------------------------------------------------------------

  predicate Reports(p: Process) { p.ReconcileListing? || p.ReconcileRecording? }

  ghost predicate CarriedIn(sys: System, good: ReconciliationEvidence -> bool, pid: nat) {
    pid in sys.processes && Reports(sys.processes[pid]) ==> good(sys.processes[pid].record)
  }

  ghost predicate LoggedIn(s: Store, good: ReconciliationEvidence -> bool, e: Id) {
    forall i :: 0 <= i < |ReconciliationLog(s, e)| ==> good(ReconciliationLog(s, e)[i].evidence)
  }

  ghost predicate Sourced(sys: System, good: ReconciliationEvidence -> bool) {
    && (forall pid {:trigger CarriedIn(sys, good, pid)} :: CarriedIn(sys, good, pid))
    && (forall e {:trigger LoggedIn(sys.store, good, e)} :: LoggedIn(sys.store, good, e))
  }

  lemma SourcedWidens(sys: System, good: ReconciliationEvidence -> bool, wider: ReconciliationEvidence -> bool)
    requires Sourced(sys, good) && forall v :: good(v) ==> wider(v)
    ensures Sourced(sys, wider)
  {
    forall pid ensures CarriedIn(sys, wider, pid) { assert CarriedIn(sys, good, pid); }
    forall e ensures LoggedIn(sys.store, wider, e) { assert LoggedIn(sys.store, good, e); }
  }

  /** A step that leaves the log alone and moves one process on, to a record that is good. */
  lemma MoveSources(sys: System, next: System, pid: nat, good: ReconciliationEvidence -> bool)
    requires Sourced(sys, good) && next.store.reconciliations == sys.store.reconciliations
    requires forall q :: q in next.processes && q != pid && Reports(next.processes[q]) ==>
               q in sys.processes && next.processes[q] == sys.processes[q]
    requires pid in next.processes && Reports(next.processes[pid]) ==> good(next.processes[pid].record)
    ensures Sourced(next, good)
  {
    forall q ensures CarriedIn(next, good, q) { assert CarriedIn(sys, good, q); }
    forall e ensures LoggedIn(next.store, good, e) {
      assert LoggedIn(sys.store, good, e) && ReconciliationLog(next.store, e) == ReconciliationLog(sys.store, e);
    }
  }

  lemma RecordSources(sys: System, pid: nat, good: ReconciliationEvidence -> bool)
    requires Sourced(sys, good) && pid in sys.processes && sys.processes[pid].ReconcileRecording?
    ensures var p := sys.processes[pid];
            Sourced(End(sys.(store := RecordReconciliation(sys.store, p.record, p.fence).0), pid), good)
  {
    var p := sys.processes[pid];
    var next := End(sys.(store := RecordReconciliation(sys.store, p.record, p.fence).0), pid);
    assert CarriedIn(sys, good, pid);
    forall q ensures CarriedIn(next, good, q) { assert CarriedIn(sys, good, q); }
    if next.store != sys.store { ReconcileEffect(sys.store, p.record, p.fence); }
    forall e ensures LoggedIn(next.store, good, e) {
      assert LoggedIn(sys.store, good, e);
      if ReconciliationLog(next.store, e) != ReconciliationLog(sys.store, e) {
        var log := ReconciliationLog(sys.store, e);
        assert ReconciliationLog(next.store, e) == log + [Reconciliation(p.record, |log| + 1)];
      }
    }
  }

  lemma ReconcilingSources(env: Environment, sys: System, pid: nat, e: Event, good: ReconciliationEvidence -> bool)
    requires Sourced(sys, good) && pid in sys.processes && IsReconciling(sys.processes[pid])
    requires forall v :: Hears(sys, Resume(pid, e), v) ==> good(v)
    ensures Sourced(AdvanceReconciliation(env, sys, pid, e), good)
  {
    var p := sys.processes[pid];
    if p.ReconcileRecording? {
      RecordSources(sys, pid, good);
    } else {
      assert CarriedIn(sys, good, pid);
      if p.ReconcilePolling? { PollAttests(e.polled, p.subject, e.observationId, e.now); }
      ReconcilingMovesOn(env, sys, pid, e);
      MoveSources(sys, AdvanceReconciliation(env, sys, pid, e), pid, good);
    }
  }

  lemma PreparingLeavesReports(env: Environment, sys: System, pid: nat, e: Event)
    requires pid in sys.processes && IsPreparing(sys.processes[pid])
    ensures LeavesReports(sys, AdvancePreparation(env, sys, pid, e), pid)
  {
  }

  lemma SubmittingLeavesReports(env: Environment, sys: System, pid: nat, e: Event)
    requires pid in sys.processes && IsSubmitting(sys.processes[pid])
    ensures LeavesReports(sys, Advance(env, sys, pid, e), pid)
  {
    SubmittingMovesItself(env, sys, pid, e);
    SubmittingKeepsLog(env, sys, pid, e);
  }

  lemma SubmittingKeepsLog(env: Environment, sys: System, pid: nat, e: Event)
    requires pid in sys.processes && IsSubmitting(sys.processes[pid])
    ensures Advance(env, sys, pid, e).store.reconciliations == sys.store.reconciliations
  {
  }

  /** The step of that process is no reconciliation step. */
  ghost predicate LeavesReports(sys: System, next: System, pid: nat) {
    && next.store.reconciliations == sys.store.reconciliations
    && (pid in next.processes ==> !Reports(next.processes[pid]))
    && forall q :: q in next.processes && q != pid ==> q in sys.processes && next.processes[q] == sys.processes[q]
  }

  lemma StepSources(env: Environment, sys: System, step: Step, good: ReconciliationEvidence -> bool)
    requires Sourced(sys, good) && forall v :: Hears(sys, step, v) ==> good(v)
    ensures Sourced(Take(env, sys, step), good)
  {
    if step.Resume? && step.pid in sys.processes {
      if IsReconciling(sys.processes[step.pid]) {
        ReconcilingSources(env, sys, step.pid, step.event, good);
      } else {
        if IsPreparing(sys.processes[step.pid]) { PreparingLeavesReports(env, sys, step.pid, step.event); }
        else { SubmittingLeavesReports(env, sys, step.pid, step.event); }
        MoveSources(sys, Take(env, sys, step), step.pid, good);
      }
    } else {
      assert CarriedIn(sys, good, step.pid);
      MoveSources(sys, Take(env, sys, step), step.pid, good);
    }
  }

  // ---- every run -------------------------------------------------------------------------------------

  predicate HeardAt(env: Environment, steps: seq<Step>, n: nat, v: ReconciliationEvidence)
    requires n < |steps|
  {
    Hears(Run(env, steps[..n]), steps[n], v)
  }

  ghost predicate Heard(env: Environment, steps: seq<Step>, v: ReconciliationEvidence) {
    exists n: nat :: n < |steps| && HeardAt(env, steps, n, v)
  }

  lemma HeardLater(env: Environment, steps: seq<Step>, v: ReconciliationEvidence)
    requires steps != [] && (Heard(env, steps[..|steps| - 1], v) || HeardAt(env, steps, |steps| - 1, v))
    ensures Heard(env, steps, v)
  {
    if Heard(env, steps[..|steps| - 1], v) {
      var n: nat :| n < |steps| - 1 && HeardAt(env, steps[..|steps| - 1], n, v);
      assert steps[..|steps| - 1][..n] == steps[..n];
      assert HeardAt(env, steps, n, v);
    }
  }

  lemma {:induction false} RunIsSourced(env: Environment, steps: seq<Step>)
    ensures Sourced(Run(env, steps), v => Heard(env, steps, v))
  {
    if steps != [] {
      var n := |steps| - 1;
      RunIsSourced(env, steps[..n]);
      forall v | Heard(env, steps[..n], v) || HeardAt(env, steps, n, v) ensures Heard(env, steps, v) {
        HeardLater(env, steps, v);
      }
      SourcedWidens(Run(env, steps[..n]), v => Heard(env, steps[..n], v), v => Heard(env, steps, v));
      forall v | Hears(Run(env, steps[..n]), steps[n], v) ensures Heard(env, steps, v) {
        assert HeardAt(env, steps, n, v);
      }
      StepSources(env, Run(env, steps[..n]), steps[n], v => Heard(env, steps, v));
    }
  }

  /** Every observation on record is what one poll answered, whatever happened between the poll and the record. */
  lemma ObservationsHaveCauses(env: Environment, steps: seq<Step>, e: Id, i: nat)
    requires i < |ReconciliationLog(Run(env, steps).store, e)|
    ensures exists n: nat :: n < |steps|
              && HeardAt(env, steps, n, ReconciliationLog(Run(env, steps).store, e)[i].evidence)
  {
    RunIsSourced(env, steps);
    assert LoggedIn(Run(env, steps).store, v => Heard(env, steps, v), e);
    assert Heard(env, steps, ReconciliationLog(Run(env, steps).store, e)[i].evidence);
  }
}
