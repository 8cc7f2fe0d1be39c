/**
 What a reconcile call reports for an execution that is finished already. It takes the latest reconciliation
 observation: over which runs that shows the stored outcome, and a run over which there is none to take.
 */
module DevnetTerminalRuns {
  import opened Wrappers
  import opened DevnetLifecycle
  import opened DevnetStore
  import opened DevnetStoreInvariant
  import opened DevnetStoreRuns
  import opened DevnetEvidenceSearch
  import opened DevnetObservation
  import opened DevnetProtocol
  import opened DevnetSafety
  import opened DevnetReconcileRuns

  /** The observation the terminal branch returns; without one it throws. */
  function TerminalAnswer(s: Store, p: Preparation): Option<Reconciliation> {
    ServiceEvidence(ListReconciliations(s, p.input.executionId, p.input.actorSubject))
  }

  lemma FinishedIsListed(s: Store, p: Preparation)
    requires Valid(s) && Finished(s, p)
    ensures TerminalAnswer(s, p) == ServiceEvidence(ReconciliationLog(s, p.input.executionId))
  {
    assert CommittedBy(s.preparations, s.commitments, p.input.preparationId);
    ActiveIsTheLiveOne(s, p.input.executionId);
  }

  /** In every run the branch shows the stored outcome iff no settled or rejected submission ended the execution. */
  lemma TerminalBranchSupportsIff(env: Environment, steps: seq<Step>, pid: nat)
    requires pid in DevnetSafety.Run(env, steps).processes
    requires DevnetSafety.Run(env, steps).processes[pid].ReconcileTerminal?
    ensures var s, p := DevnetSafety.Run(env, steps).store, DevnetSafety.Run(env, steps).processes[pid].preparation;
            Supports(p.state, TerminalAnswer(s, p)) <==> !LastS(SubmissionLog(s, p.input.executionId), EndsS)
  {
    var sys := DevnetSafety.Run(env, steps);
    RunIsSafe(env, steps);
    RunKeepsGrounded(env, steps);
    assert GroundedAt(sys, pid);
    FinishedIsListed(sys.store, sys.processes[pid].preparation);
    ServiceEvidenceSupports(sys.store, sys.processes[pid].preparation.input.executionId);
  }

  // ---- transports that accept or throw -----------------------------------------------------------------

  ghost predicate NeverSettles(steps: seq<Step>) {
    forall i :: 0 <= i < |steps| ==> !SettlesAt(steps[i])
  }

  predicate SettlesAt(step: Step) { step.Resume? && step.event.answer.TransportSettled? }

  ghost predicate Unended(s: Store, e: Id) {
    forall i :: 0 <= i < |SubmissionLog(s, e)| ==> !EndsS(SubmissionLog(s, e)[i])
  }

  ghost predicate Pending(sys: System, pid: nat) {
    pid in sys.processes && (sys.processes[pid].RecordingOutcome? || sys.processes[pid].RecordingLast?) ==>
      !EndsS(sys.processes[pid].evidence)
  }

  ghost predicate Unsettled(sys: System) {
    && (forall e {:trigger Unended(sys.store, e)} :: Unended(sys.store, e))
    && (forall pid {:trigger Pending(sys, pid)} :: Pending(sys, pid))
  }

  lemma UnsettledStep(sys: System, next: System, pid: nat)
    requires Unsettled(sys)
    requires forall e :: SubmissionLog(next.store, e) == SubmissionLog(sys.store, e) || Unended(next.store, e)
    requires forall p :: p in next.processes && p != pid ==>
               p in sys.processes && next.processes[p] == sys.processes[p]
    requires Pending(next, pid)
    ensures Unsettled(next)
  {
    forall e ensures Unended(next.store, e) { assert Unended(sys.store, e); }
    forall p ensures Pending(next, p) { assert Pending(sys, p); }
  }

  lemma RecordingStaysUnended(s: Store, v: SubmissionEvidence, actor: Id, e: Id)
    requires Unended(s, e) && !EndsS(v)
    ensures Unended(RecordSubmission(s, v, actor).0, e)
  {
    if RecordSubmission(s, v, actor).0 != s {
      SubmitEffect(s, v, actor);
      var log := SubmissionLog(s, e);
      assert SubmissionLog(Submitted(s, v), e) == if e == v.executionId then log + [v] else log;
    }
  }

  lemma RecordingStepUnsettled(env: Environment, sys: System, pid: nat, e: Event)
    requires Unsettled(sys) && pid in sys.processes
    requires sys.processes[pid].RecordingOutcome? || sys.processes[pid].RecordingLast?
    ensures Unsettled(Advance(env, sys, pid, e))
  {
    var p, next := sys.processes[pid], Advance(env, sys, pid, e);
    assert Pending(sys, pid);
    forall x ensures Unended(next.store, x) {
      assert Unended(sys.store, x);
      RecordingStaysUnended(sys.store, p.evidence, p.grant.actorSubject, x);
    }
    UnsettledStep(sys, next, pid);
  }

  lemma SubmittingStepUnsettled(env: Environment, sys: System, pid: nat, e: Event)
    requires Unsettled(sys) && pid in sys.processes && !e.answer.TransportSettled? && IsSubmitting(sys.processes[pid])
    requires !sys.processes[pid].RecordingOutcome? && !sys.processes[pid].RecordingLast?
    ensures Unsettled(Advance(env, sys, pid, e))
  {
    var p, next := sys.processes[pid], Advance(env, sys, pid, e);
    SubmittingMovesItself(env, sys, pid, e);
    assert next.store == sys.store || (p.Committing? && next.store == CommitSubmission(sys.store, p.commit).0);
    UnsettledStep(sys, next, pid);
  }

  lemma PreparingStepUnsettled(env: Environment, sys: System, pid: nat, e: Event)
    requires Unsettled(sys) && pid in sys.processes && IsPreparing(sys.processes[pid])
    ensures Unsettled(AdvancePreparation(env, sys, pid, e))
  {
    var p, next := sys.processes[pid], AdvancePreparation(env, sys, pid, e);
    if !p.Persisting? && !p.Replacing? { PreparingMovesOn(env, sys, pid, e); }
    UnsettledStep(sys, next, pid);
  }

  lemma ReconcilingStepUnsettled(env: Environment, sys: System, pid: nat, e: Event)
    requires Unsettled(sys) && pid in sys.processes && IsReconciling(sys.processes[pid])
    ensures Unsettled(AdvanceReconciliation(env, sys, pid, e))
  {
    var p := sys.processes[pid];
    if p.ReconcileRecording? {
      ReconcilingUnsettled(sys, pid, p.record, p.fence);
    } else {
      ReconcilingMovesOn(env, sys, pid, e);
      UnsettledStep(sys, AdvanceReconciliation(env, sys, pid, e), pid);
    }
  }

  lemma ReconcilingUnsettled(sys: System, pid: nat, v: ReconciliationEvidence, fence: Fence)
    requires Unsettled(sys)
    ensures Unsettled(End(sys.(store := RecordReconciliation(sys.store, v, fence).0), pid))
  {
    var next := End(sys.(store := RecordReconciliation(sys.store, v, fence).0), pid);
    if next.store != sys.store { ReconcileEffect(sys.store, v, fence); }
    UnsettledStep(sys, next, pid);
  }

  lemma TakeUnsettled(env: Environment, sys: System, step: Step)
    requires Unsettled(sys) && !SettlesAt(step)
    ensures Unsettled(Take(env, sys, step))
  {
    if step.Resume? && step.pid in sys.processes {
      var p := sys.processes[step.pid];
      if p.RecordingOutcome? || p.RecordingLast? { RecordingStepUnsettled(env, sys, step.pid, step.event); }
      else if IsSubmitting(p) { SubmittingStepUnsettled(env, sys, step.pid, step.event); }
      else if IsPreparing(p) { PreparingStepUnsettled(env, sys, step.pid, step.event); }
      else { ReconcilingStepUnsettled(env, sys, step.pid, step.event); }
    } else {
      assert Pending(sys, step.pid);
      UnsettledStep(sys, Take(env, sys, step), step.pid);
    }
  }

  lemma {:induction false} RunUnsettled(env: Environment, steps: seq<Step>)
    requires NeverSettles(steps)
    ensures Unsettled(DevnetSafety.Run(env, steps))
  {
    if steps != [] {
      RunUnsettled(env, steps[..|steps| - 1]);
      TakeUnsettled(env, DevnetSafety.Run(env, steps[..|steps| - 1]), steps[|steps| - 1]);
    }
  }

  /** With a transport that accepts or throws and never settles, the branch always shows the stored outcome. */
  lemma TerminalBranchSupports(env: Environment, steps: seq<Step>, pid: nat)
    requires NeverSettles(steps) && pid in DevnetSafety.Run(env, steps).processes
    requires DevnetSafety.Run(env, steps).processes[pid].ReconcileTerminal?
    ensures var s, p := DevnetSafety.Run(env, steps).store, DevnetSafety.Run(env, steps).processes[pid].preparation;
            Supports(p.state, TerminalAnswer(s, p))
  {
    var sys := DevnetSafety.Run(env, steps);
    var e := sys.processes[pid].preparation.input.executionId;
    RunUnsettled(env, steps);
    assert Unended(sys.store, e);
    TerminalBranchSupportsIff(env, steps, pid);
  }

  // ---- a transport that settles -------------------------------------------------------------------------

  function SampleHash(): string { seq(64, _ => 'a') }

  const NOON := Timestamp("2026-08-13T12:00:00.000Z", true)

  function SampleEnvelope(): Envelope { Envelope("aes-256-gcm", "kms", seq(12, _ => 0), seq(16, _ => 0), [0]) }

  function SampleArtifact(): Artifact {
    Artifact("signature", SampleHash(), "solana-devnet", "mint", "1", "destination", "source", 6,
             "blockhash-1", "1", "signer", "1", "public-key", SampleHash(), "submit", "reconcile")
  }

  function SampleInput(): PreparationInput {
    PreparationInput(33, 22, 11, 7, 1, SampleEnvelope(), SampleArtifact(), NOON)
  }

  function SampleSettled(): SubmissionEvidence {
    SubmissionEvidence(55, 22, 33, 44, "submit", "signature", SubmissionSettled, ContactAccepted, NOON,
                       None, Some("5"), Some("finalized"))
  }

  function SampleEnvironment(): Environment {
    Environment("kms", (_, _) => SampleEnvelope(), (_, _) => Some("bytes"), _ => SampleHash(), "submit",
                "reconcile", true, true)
  }

  function Answering(answer: TransportAnswer): Event {
    Event(Some(Signed(SampleArtifact(), "bytes")), false, NOON, 55, true, true, answer, Threw(Thrown(None, None)), true,
          Fence("worker", NOON))
  }

  const QUIET := Answering(TransportThrew)
  const SETTLED := Answering(TransportSettled(NOON, "5", "finalized"))

  const PREPARE: seq<Step> :=
    [StartPrepare(1, Identity(33, 22, 11, 7, 1), Command(22, 11, true)), Resume(1, QUIET), Resume(1, QUIET)]
  const COMMIT: seq<Step> := [StartSubmit(2, SubmitRequest(22, 7, 44)), Resume(2, QUIET), Resume(2, QUIET)]
  const SUBMIT: seq<Step> := [Resume(2, QUIET), Resume(2, SETTLED), Resume(2, QUIET)]
  const RECONCILE: seq<Step> := [StartReconcile(3, 22, 7), Resume(3, QUIET), Resume(3, QUIET)]

  function SampleCommitment(): Commitment { Commitment(44, 22, 33, "signature", SampleHash(), NOON) }

  function SampleGrant(): Grant { Grant(SampleCommitment(), 33, 7) }

  function SampleCommitted(): Preparation { Preparation(SampleInput(), SubmissionCommitted, None, Some(NOON)) }

  function SampleFinished(): Preparation { SampleCommitted().(state := Settled) }

  function PreparedStore(): Store { Store([33], map[33 := Fresh(SampleInput())], map[], map[], map[]) }

  function CommittedStore(): Store {
    Store([33], map[33 := SampleCommitted()], map[22 := SampleCommitment()], map[], map[])
  }

  function SettledStore(): Store {
    Store([33], map[33 := SampleFinished()], map[22 := SampleCommitment()], map[], map[22 := [SampleSettled()]])
  }

  lemma RunSnoc(env: Environment, steps: seq<Step>, step: Step, sys: System)
    requires DevnetSafety.Run(env, steps) == sys
    ensures DevnetSafety.Run(env, steps + [step]) == Take(env, sys, step)
  {
    assert (steps + [step])[..|steps|] == steps;
  }

  lemma RunThree(env: Environment, steps: seq<Step>, three: seq<Step>, sys: System)
    requires DevnetSafety.Run(env, steps) == sys && |three| == 3
    ensures DevnetSafety.Run(env, steps + three)
            == Take(env, Take(env, Take(env, sys, three[0]), three[1]), three[2])
  {
    RunSnoc(env, steps, three[0], sys);
    RunSnoc(env, steps + [three[0]], three[1], Take(env, sys, three[0]));
    RunSnoc(env, steps + [three[0]] + [three[1]], three[2], Take(env, Take(env, sys, three[0]), three[1]));
    assert steps + three == steps + [three[0]] + [three[1]] + [three[2]];
  }

  lemma SampleIsChecked()
    ensures ArtifactRefusal(SampleInput()).None?
  {
    assert IsHex64(SampleHash());
  }

  lemma SampleEvidenceIsChecked()
    ensures SubmissionRefusal(SampleSettled()).None?
  {
  }

  lemma SampleIsPersisted()
    ensures DevnetStore.PersistPreparation(EMPTY, SampleInput()).0 == PreparedStore()
  {
    SampleIsChecked();
  }

  lemma SampleIsPrepared()
    ensures DevnetSafety.Run(SampleEnvironment(), PREPARE) == System(PreparedStore(), map[], [])
  {
    var env, sys := SampleEnvironment(), Move(INITIAL, 1, Persisting(SampleInput()));
    RunThree(env, [], PREPARE, INITIAL);
    SampleIsPersisted();
    assert [] + PREPARE == PREPARE;
    assert Take(env, Take(env, INITIAL, PREPARE[0]), PREPARE[1]) == sys;
  }

  lemma SampleIsFound(s: Store, p: Preparation)
    requires s.order == [33] && s.preparations == map[33 := p] && p.input == SampleInput()
    requires !p.state.AbandonedPreContact?
    ensures FindPreparation(s, 22, 7) == Some(p)
  {
  }

  lemma SampleIsCommitted()
    ensures DevnetSafety.Run(SampleEnvironment(), PREPARE + COMMIT)
            == System(CommittedStore(), map[2 := Sending(SampleGrant(), "bytes")], [])
  {
    var env, sys := SampleEnvironment(), System(PreparedStore(), map[], []);
    SampleIsPrepared();
    RunThree(env, PREPARE, COMMIT, sys);
    SampleIsFound(PreparedStore(), Fresh(SampleInput()));
    assert Take(env, Take(env, sys, COMMIT[0]), COMMIT[1])
           == Move(sys, 2, Committing(CommitRequest(22, 7, 33, 44, NOON)));
  }

  lemma SampleIsSettled()
    ensures DevnetSafety.Run(SampleEnvironment(), PREPARE + COMMIT + SUBMIT)
            == System(SettledStore(), map[], [Contact(22, "bytes")])
  {
    var env := SampleEnvironment();
    var sys := System(CommittedStore(), map[2 := Sending(SampleGrant(), "bytes")], []);
    var sent := System(CommittedStore(), map[2 := Awaiting(SampleGrant())], [Contact(22, "bytes")]);
    SampleIsCommitted();
    RunThree(env, PREPARE + COMMIT, SUBMIT, sys);
    SampleIsRecorded();
    assert Take(env, sys, SUBMIT[0]) == sent;
    assert Take(env, sent, SUBMIT[1]) == Move(sent, 2, RecordingOutcome(SampleGrant(), SampleSettled()));
  }

  lemma SampleIsRecorded()
    ensures RecordSubmission(CommittedStore(), SampleSettled(), 7).0 == SettledStore()
    ensures RecordSubmission(CommittedStore(), SampleSettled(), 7).1.Ok?
  {
    SampleEvidenceIsChecked();
    var s, t := CommittedStore(), RecordSubmission(CommittedStore(), SampleSettled(), 7).0;
    assert t.preparations == s.preparations[33 := SampleFinished()];
    assert [] + [SampleSettled()] == [SampleSettled()];
    assert t.submissions == s.submissions[22 := [SampleSettled()]];
  }

  /** A run whose transport answers "settled": the reconcile call that follows has no observation to return. */
  lemma SettledBySubmissionHasNoServiceEvidence()
    ensures var sys := DevnetSafety.Run(SampleEnvironment(), PREPARE + COMMIT + SUBMIT + RECONCILE);
            && 3 in sys.processes && sys.processes[3] == ReconcileTerminal(SampleFinished())
            && SampleFinished().state.Settled? && TerminalAnswer(sys.store, SampleFinished()).None?
  {
    var env, sys := SampleEnvironment(), System(SettledStore(), map[], [Contact(22, "bytes")]);
    SampleIsSettled();
    RunThree(env, PREPARE + COMMIT + SUBMIT, RECONCILE, sys);
    SampleIsFound(SettledStore(), SampleFinished());
    assert Take(env, Take(env, sys, RECONCILE[0]), RECONCILE[1]) == Move(sys, 3, ReconcileCommitment(SampleFinished()));
  }
}
