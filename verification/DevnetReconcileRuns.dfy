/**
 A reconcile call works on snapshots it read several awaits ago. Over every run its record still names the
 committed preparation, its owner, its provider and its signature when it reaches the repository.
 */
module DevnetReconcileRuns {
  import opened Wrappers
  import opened DevnetLifecycle
  import opened DevnetStore
  import opened DevnetStoreInvariant
  import opened DevnetStoreRuns
  import opened DevnetObservation
  import opened DevnetProtocol
  import opened DevnetSafety

  /** The subject is the committed preparation of its execution. */
  ghost predicate Attested(s: Store, x: Subject) {
    && x.preparationId in s.preparations && x.executionId in s.commitments
    && s.preparations[x.preparationId].input.executionId == x.executionId
    && s.preparations[x.preparationId].input.actorSubject == x.actorSubject
    && s.preparations[x.preparationId].input.artifact.reconciliationProviderId == x.providerId
    && s.commitments[x.executionId].preparationId == x.preparationId
    && s.commitments[x.executionId].signature == x.signature
  }

  function SubjectOf(v: ReconciliationEvidence): Subject {
    Subject(v.executionId, v.actorSubject, v.preparationId, v.signature, v.providerId)
  }

  /** The preparation is stored as remembered, committed and terminal. */
  ghost predicate Finished(s: Store, q: Preparation) {
    && q.input.preparationId in s.preparations && s.preparations[q.input.preparationId] == q && IsTerminal(q.state)
    && q.input.executionId in s.commitments
    && s.commitments[q.input.executionId].preparationId == q.input.preparationId
  }

  /** What a reconcile process remembers is still true of the store. */
  ghost predicate Grounded(s: Store, p: Process) {
    match p
    case ReconcileCommitment(q) =>
      && q.input.preparationId in s.preparations && s.preparations[q.input.preparationId].input == q.input
      && (IsTerminal(q.state) ==> s.preparations[q.input.preparationId] == q)
    case ReconcileTerminal(q) => Finished(s, q)
    case ReconcilePolling(x) => Attested(s, x)
    case ReconcileListing(v, _) => Attested(s, SubjectOf(v))
    case ReconcileRecording(v, _) => Attested(s, SubjectOf(v))
    case _ => true
  }

  ghost predicate GroundedAt(sys: System, pid: nat) {
    pid in sys.processes ==> Grounded(sys.store, sys.processes[pid])
  }

  ghost predicate AllGrounded(sys: System) { forall pid {:trigger GroundedAt(sys, pid)} :: GroundedAt(sys, pid) }

  /** Identity, artifact and commitment never change, so a remembered fact stays true. */
  lemma GroundedStays(s: Store, t: Store, p: Process)
    requires Valid(s) && Extends(s, t) && Grounded(s, p)
    ensures Grounded(t, p)
  {
    match p
    case ReconcileCommitment(q) => assert KeepsPreparation(s, t, q.input.preparationId);
    case ReconcileTerminal(q) =>
      assert KeepsPreparation(s, t, q.input.preparationId) && KeepsCommitment(s, t, q.input.executionId);
    case ReconcilePolling(x) => AttestedStays(s, t, x);
    case ReconcileListing(v, _) => AttestedStays(s, t, SubjectOf(v));
    case ReconcileRecording(v, _) => AttestedStays(s, t, SubjectOf(v));
    case _ =>
  }

  lemma AttestedStays(s: Store, t: Store, x: Subject)
    requires Extends(s, t) && Attested(s, x)
    ensures Attested(t, x)
  {
    assert KeepsPreparation(s, t, x.preparationId) && KeepsCommitment(s, t, x.executionId);
  }

  lemma OthersStayGrounded(sys: System, next: System, pid: nat)
    requires AllGrounded(sys) && Valid(sys.store) && Extends(sys.store, next.store)
    requires forall p :: p in next.processes && p != pid ==>
               p in sys.processes && next.processes[p] == sys.processes[p]
    requires pid in next.processes ==> Grounded(next.store, next.processes[pid])
    ensures AllGrounded(next)
  {
    forall p ensures GroundedAt(next, p) {
      assert GroundedAt(sys, p);
      if p in next.processes && p != pid { GroundedStays(sys.store, next.store, sys.processes[p]); }
    }
  }

  // ---- the steps ---------------------------------------------------------------------------------------

  lemma ReconcilingExtends(env: Environment, sys: System, pid: nat, e: Event)
    requires Valid(sys.store) && pid in sys.processes
    ensures Extends(sys.store, AdvanceReconciliation(env, sys, pid, e).store)
  {
    var p := sys.processes[pid];
    ExtendsSelf(sys.store);
    if p.ReconcileRecording? { ReconcileExtends(sys.store, p.record, p.fence); }
  }

  lemma PreparingExtends(env: Environment, sys: System, pid: nat, e: Event)
    requires Valid(sys.store) && pid in sys.processes
    ensures Extends(sys.store, AdvancePreparation(env, sys, pid, e).store)
  {
    var p := sys.processes[pid];
    ExtendsSelf(sys.store);
    if p.Persisting? { PersistExtends(sys.store, p.input); }
    if p.Replacing? { ReplaceExtends(sys.store, p.priorId, p.input, p.abandonedAt); }
  }

  lemma SubmittingExtends(env: Environment, sys: System, pid: nat, e: Event)
    requires Valid(sys.store) && pid in sys.processes && IsSubmitting(sys.processes[pid])
    ensures Extends(sys.store, Advance(env, sys, pid, e).store)
  {
    var p := sys.processes[pid];
    ExtendsSelf(sys.store);
    if p.Committing? { CommitExtends(sys.store, p.commit); }
    if p.RecordingOutcome? || p.RecordingLast? { SubmitExtends(sys.store, p.evidence, p.grant.actorSubject); }
  }

  /** The record built from any poll names the subject polled for. */
  lemma RecordNamesSubject(polled: ProviderAnswer, x: Subject, id: Id, now: Timestamp)
    ensures SubjectOf(EvidenceFor(polled, x, id, now)) == x
  {
  }

  lemma FoundIsStored(s: Store, e: Id, a: Id)
    requires Valid(s) && FindPreparation(s, e, a).Some?
    ensures var p := FindPreparation(s, e, a).value;
            p.input.preparationId in s.preparations && s.preparations[p.input.preparationId] == p
            && p.input.executionId == e && p.input.actorSubject == a
  {
    ActiveIsTheLiveOne(s, e);
  }

  lemma CommittedSubject(s: Store, env: Environment, p: Preparation)
    requires Valid(s) && p.input.preparationId in s.preparations
    requires s.preparations[p.input.preparationId].input == p.input
    requires FindCommitment(s, p.input.executionId, p.input.actorSubject).Some?
    requires FindCommitment(s, p.input.executionId, p.input.actorSubject).value.preparationId == p.input.preparationId
    requires p.input.artifact.reconciliationProviderId == env.reconciliationProviderId
    ensures var c := FindCommitment(s, p.input.executionId, p.input.actorSubject).value;
            Attested(s, Subject(p.input.executionId, p.input.actorSubject, p.input.preparationId, c.signature,
                                env.reconciliationProviderId))
  {
  }

  lemma ReconcilingKeeps(env: Environment, sys: System, pid: nat, e: Event)
    requires AllGrounded(sys) && Valid(sys.store) && pid in sys.processes && IsReconciling(sys.processes[pid])
    ensures AllGrounded(AdvanceReconciliation(env, sys, pid, e))
  {
    var p, next := sys.processes[pid], AdvanceReconciliation(env, sys, pid, e);
    assert GroundedAt(sys, pid);
    ReconcilingExtends(env, sys, pid, e);
    if pid in next.processes { StaysOnSubject(env, sys, pid, e); }
    OthersStayGrounded(sys, next, pid);
  }

  lemma StaysOnSubject(env: Environment, sys: System, pid: nat, e: Event)
    requires Valid(sys.store) && pid in sys.processes && IsReconciling(sys.processes[pid])
    requires Grounded(sys.store, sys.processes[pid]) && pid in AdvanceReconciliation(env, sys, pid, e).processes
    ensures AdvanceReconciliation(env, sys, pid, e).store == sys.store
    ensures Grounded(sys.store, AdvanceReconciliation(env, sys, pid, e).processes[pid])
  {
    var p := sys.processes[pid];
    if p.ReconcileFinding? { FoundIsStored(sys.store, p.executionId, p.actorSubject); }
    else if p.ReconcileCommitment? { CommittedSubject(sys.store, env, p.preparation); }
    else if p.ReconcilePolling? { RecordNamesSubject(e.polled, p.subject, e.observationId, e.now); }
  }

  lemma PreparingKeeps(env: Environment, sys: System, pid: nat, e: Event)
    requires AllGrounded(sys) && Valid(sys.store) && pid in sys.processes && IsPreparing(sys.processes[pid])
    ensures AllGrounded(AdvancePreparation(env, sys, pid, e))
  {
    PreparingExtends(env, sys, pid, e);
    OthersStayGrounded(sys, AdvancePreparation(env, sys, pid, e), pid);
  }

  lemma AdvanceKeeps(env: Environment, sys: System, pid: nat, e: Event)
    requires AllGrounded(sys) && Valid(sys.store) && pid in sys.processes
    ensures AllGrounded(Advance(env, sys, pid, e))
  {
    if IsReconciling(sys.processes[pid]) { ReconcilingKeeps(env, sys, pid, e); }
    else if IsPreparing(sys.processes[pid]) { PreparingKeeps(env, sys, pid, e); }
    else {
      SubmittingExtends(env, sys, pid, e);
      SubmittingMovesItself(env, sys, pid, e);
      OthersStayGrounded(sys, Advance(env, sys, pid, e), pid);
    }
  }

  lemma TakeKeeps(env: Environment, sys: System, step: Step)
    requires AllGrounded(sys) && Valid(sys.store)
    ensures AllGrounded(Take(env, sys, step))
  {
    if step.Resume? && step.pid in sys.processes { AdvanceKeeps(env, sys, step.pid, step.event); }
    else {
      ExtendsSelf(sys.store);
      assert GroundedAt(sys, step.pid);
      OthersStayGrounded(sys, Take(env, sys, step), step.pid);
    }
  }

  lemma {:induction false} RunKeepsGrounded(env: Environment, steps: seq<Step>)
    ensures AllGrounded(DevnetSafety.Run(env, steps))
  {
    if steps != [] {
      RunKeepsGrounded(env, steps[..|steps| - 1]);
      RunIsSafe(env, steps[..|steps| - 1]);
      TakeKeeps(env, DevnetSafety.Run(env, steps[..|steps| - 1]), steps[|steps| - 1]);
    }
  }

  /** All that can still refuse a record which names the committed preparation. */
  ghost predicate RefusedFor(s: Store, v: ReconciliationEvidence, fence: Fence)
    requires v.preparationId in s.preparations
  {
    var p, log := s.preparations[v.preparationId], ReconciliationLog(s, v.executionId);
    || ReconciliationRefusal(v, fence).Some?
    || (log == [] && IsTerminal(p.state))
    || (log != [] && !IsTerminal(p.state) && HasReconciliationId(log, v.observationId)
        && !SameReconciliation(log[|log| - 1].evidence, v))
  }

  lemma AttestedRecordIsRefusedIff(s: Store, v: ReconciliationEvidence, fence: Fence)
    requires Valid(s) && Attested(s, SubjectOf(v))
    ensures RecordReconciliation(s, v, fence).1.Err? <==> RefusedFor(s, v, fence)
  {
    assert Matches(s.preparations, s.commitments, v.executionId);
    assert CommittedBy(s.preparations, s.commitments, v.preparationId);
  }

  /**
   Over every run, a reconcile process that reaches the repository is refused only for a malformed record, for a
   terminal state reached by submission alone, or for a reused observation id; never for naming the wrong
   preparation, owner, provider or signature.
   */
  lemma ReconcileIsRefusedIff(env: Environment, steps: seq<Step>, pid: nat)
    requires pid in DevnetSafety.Run(env, steps).processes
    requires DevnetSafety.Run(env, steps).processes[pid].ReconcileRecording?
    ensures var s, q := DevnetSafety.Run(env, steps).store, DevnetSafety.Run(env, steps).processes[pid];
            Attested(s, SubjectOf(q.record))
            && (RecordReconciliation(s, q.record, q.fence).1.Err? <==> RefusedFor(s, q.record, q.fence))
  {
    var sys := DevnetSafety.Run(env, steps);
    RunKeepsGrounded(env, steps);
    RunIsSafe(env, steps);
    assert GroundedAt(sys, pid);
    AttestedRecordIsRefusedIff(sys.store, sys.processes[pid].record, sys.processes[pid].fence);
  }
}
