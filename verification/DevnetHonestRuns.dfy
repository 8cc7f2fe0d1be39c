/**
 With a cipher that decrypts what it encrypted and a preparer that reports the digest of the bytes it signed,
 a committed preparation always reads back, so no submission is ever recorded as invalid.
 */
module DevnetHonestRuns {
  import opened Wrappers
  import opened DevnetLifecycle
  import opened DevnetStore
  import opened DevnetStoreInvariant
  import opened DevnetObservation
  import opened DevnetProtocol
  import opened DevnetSafety

  ghost predicate LawfulCipher(env: Environment) {
    forall t, c :: env.encrypt(t, c).keyVersion == c.keyVersion && env.decrypt(env.encrypt(t, c), c) == Some(t)
  }

  ghost predicate HonestPreparer(env: Environment, steps: seq<Step>) {
    forall i :: 0 <= i < |steps| ==> HonestStep(env, steps[i])
  }

  ghost predicate HonestStep(env: Environment, step: Step) {
    step.Resume? && step.event.signed.Some? ==>
      env.digest(step.event.signed.value.transaction) == step.event.signed.value.artifact.signedTransactionDigest
  }

  ghost predicate Readable(env: Environment, ps: map<Id, Preparation>, k: Id) {
    k in ps ==> Reconstruct(env, ps[k].input).Some?
  }

  ghost predicate NeverInvalid(s: Store, e: Id) {
    forall i :: 0 <= i < |SubmissionLog(s, e)| ==> !SubmissionLog(s, e)[i].outcome.ValidationFailed?
  }

  ghost predicate HonestProcess(env: Environment, p: Process) {
    && (p.Persisting? || p.Replacing? ==> Reconstruct(env, p.input).Some?)
    && (p.RecordingOutcome? || p.RecordingLast? ==> !p.evidence.outcome.ValidationFailed?)
  }

  ghost predicate HonestAt(env: Environment, sys: System, pid: nat) {
    pid in sys.processes ==> HonestProcess(env, sys.processes[pid])
  }

  ghost predicate Honest(env: Environment, sys: System) {
    && (forall k {:trigger Readable(env, sys.store.preparations, k)} :: Readable(env, sys.store.preparations, k))
    && (forall e {:trigger NeverInvalid(sys.store, e)} :: NeverInvalid(sys.store, e))
    && (forall p {:trigger HonestAt(env, sys, p)} :: HonestAt(env, sys, p))
  }

  /** Encrypting under an identity and reading back under the same one returns the signed bytes. */
  lemma PersistenceReadsBack(env: Environment, i: Identity, s: Signed, now: Timestamp)
    requires LawfulCipher(env) && env.digest(s.transaction) == s.artifact.signedTransactionDigest
    ensures Reconstruct(env, Persistence(env, i, s, now)) == Some(s.transaction)
  {
    var c := Context(i.executionId, i.preparationId, env.keyVersion);
    assert env.encrypt(s.transaction, c).keyVersion == c.keyVersion;
  }

  /** What a step must establish: new inputs read back, new submissions and processes are honest. */
  lemma HonestStepKeeps(env: Environment, sys: System, next: System, pid: nat)
    requires Honest(env, sys)
    requires forall k :: k in next.store.preparations ==>
               (k in sys.store.preparations && next.store.preparations[k].input == sys.store.preparations[k].input)
               || Reconstruct(env, next.store.preparations[k].input).Some?
    requires forall e :: SubmissionLog(next.store, e) == SubmissionLog(sys.store, e) || NeverInvalid(next.store, e)
    requires forall p :: p in next.processes && p != pid ==>
               p in sys.processes && next.processes[p] == sys.processes[p]
    requires pid in next.processes ==> HonestProcess(env, next.processes[pid])
    ensures Honest(env, next)
  {
    forall k ensures Readable(env, next.store.preparations, k) { assert Readable(env, sys.store.preparations, k); }
    forall e ensures NeverInvalid(next.store, e) { assert NeverInvalid(sys.store, e); }
    forall p ensures HonestAt(env, next, p) { assert HonestAt(env, sys, p); }
  }

  lemma HonestCommit(env: Environment, sys: System, pid: nat, r: CommitRequest, e: Event)
    requires Honest(env, sys) && Valid(sys.store) && pid in sys.processes
    ensures Honest(env, AdvanceCommit(env, sys, pid, r, e))
  {
    var reply := CommitSubmission(sys.store, r).1;
    if reply.Ok? { assert Readable(env, sys.store.preparations, reply.value.preparation.input.preparationId); }
    CommitKeepsInputs(sys.store, r);
    HonestStepKeeps(env, sys, AdvanceCommit(env, sys, pid, r, e), pid);
  }

  lemma CommitKeepsInputs(s: Store, r: CommitRequest)
    requires Valid(s)
    ensures var (t, reply) := CommitSubmission(s, r);
            && t.preparations.Keys == s.preparations.Keys && t.submissions == s.submissions
            && (forall k :: k in s.preparations ==> t.preparations[k].input == s.preparations[k].input)
            && (reply.Ok? ==>
                  (reply.value.preparation.input.preparationId in s.preparations
                   && s.preparations[reply.value.preparation.input.preparationId].input
                      == reply.value.preparation.input))
  {
    assert r.executionId in s.commitments ==> Matches(s.preparations, s.commitments, r.executionId);
  }

  lemma HonestRecord(env: Environment, sys: System, next: System, pid: nat, v: SubmissionEvidence, actor: Id)
    requires Honest(env, sys) && Valid(sys.store) && !v.outcome.ValidationFailed?
    requires next.store == RecordSubmission(sys.store, v, actor).0
    requires forall p :: p in next.processes && p != pid ==>
               p in sys.processes && next.processes[p] == sys.processes[p]
    requires pid in next.processes ==> HonestProcess(env, next.processes[pid])
    ensures Honest(env, next)
  {
    if next.store != sys.store {
      SubmitEffect(sys.store, v, actor);
      assert NeverInvalid(sys.store, v.executionId);
      assert NeverInvalid(next.store, v.executionId);
    }
    HonestStepKeeps(env, sys, next, pid);
  }

  /** Both preparation calls keep every stored input and add at most the one they were given. */
  lemma PersistAddsOnlyItsInput(s: Store, input: PreparationInput, k: Id)
    requires Valid(s)
    ensures var t := DevnetStore.PersistPreparation(s, input).0;
            t.submissions == s.submissions && Adds(s.preparations, t.preparations, input, k)
  {
  }

  lemma ReplaceAddsOnlyItsInput(s: Store, priorId: Id, input: PreparationInput, at: Timestamp, k: Id)
    requires Valid(s)
    ensures var t := DevnetStore.ReplaceExpiredPreparation(s, priorId, input, at).0;
            t.submissions == s.submissions && Adds(s.preparations, t.preparations, input, k)
  {
    assert Known(s, priorId);
  }

  ghost predicate Known(s: Store, k: Id) { k in s.preparations ==> s.preparations[k].input.preparationId == k }

  ghost predicate Adds(ps: map<Id, Preparation>, qs: map<Id, Preparation>, input: PreparationInput, k: Id) {
    k in qs ==> (k in ps && qs[k].input == ps[k].input) || qs[k].input == input
  }

  lemma HonestStore(env: Environment, sys: System, pid: nat, store: Store, input: PreparationInput)
    requires Honest(env, sys) && Reconstruct(env, input).Some? && store.submissions == sys.store.submissions
    requires forall k {:trigger Adds(sys.store.preparations, store.preparations, input, k)} ::
               Adds(sys.store.preparations, store.preparations, input, k)
    ensures Honest(env, End(sys.(store := store), pid))
  {
    var next := End(sys.(store := store), pid);
    forall k ensures Readable(env, next.store.preparations, k) {
      assert Readable(env, sys.store.preparations, k) && Adds(sys.store.preparations, store.preparations, input, k);
    }
    forall e ensures NeverInvalid(next.store, e) {
      assert NeverInvalid(sys.store, e) && SubmissionLog(next.store, e) == SubmissionLog(sys.store, e);
    }
    forall p ensures HonestAt(env, next, p) { assert HonestAt(env, sys, p); }
  }

  lemma HonestPersist(env: Environment, sys: System, pid: nat, input: PreparationInput)
    requires Honest(env, sys) && Valid(sys.store) && Reconstruct(env, input).Some?
    ensures Honest(env, End(sys.(store := DevnetStore.PersistPreparation(sys.store, input).0), pid))
  {
    var t := DevnetStore.PersistPreparation(sys.store, input).0;
    forall k ensures Adds(sys.store.preparations, t.preparations, input, k) {
      PersistAddsOnlyItsInput(sys.store, input, k);
    }
    PersistAddsOnlyItsInput(sys.store, input, 0);
    HonestStore(env, sys, pid, t, input);
  }

  lemma HonestReplace(env: Environment, sys: System, pid: nat, priorId: Id, input: PreparationInput, at: Timestamp)
    requires Honest(env, sys) && Valid(sys.store) && Reconstruct(env, input).Some?
    ensures Honest(env, End(sys.(store := DevnetStore.ReplaceExpiredPreparation(sys.store, priorId, input, at).0), pid))
  {
    var t := DevnetStore.ReplaceExpiredPreparation(sys.store, priorId, input, at).0;
    forall k ensures Adds(sys.store.preparations, t.preparations, input, k) {
      ReplaceAddsOnlyItsInput(sys.store, priorId, input, at, k);
    }
    ReplaceAddsOnlyItsInput(sys.store, priorId, input, at, 0);
    HonestStore(env, sys, pid, t, input);
  }

  lemma HonestMove(env: Environment, sys: System, next: System, pid: nat)
    requires Honest(env, sys) && next.store == sys.store
    requires MovesOn(sys, next, pid)
    requires pid in next.processes ==> HonestProcess(env, next.processes[pid])
    ensures Honest(env, next)
  {
    forall p ensures HonestAt(env, next, p) { assert HonestAt(env, sys, p); }
  }

  lemma HonestPreparation(env: Environment, sys: System, pid: nat, e: Event)
    requires LawfulCipher(env) && HonestStep(env, Resume(pid, e))
    requires Honest(env, sys) && Valid(sys.store) && pid in sys.processes && IsPreparing(sys.processes[pid])
    ensures Honest(env, AdvancePreparation(env, sys, pid, e))
  {
    var p, next := sys.processes[pid], AdvancePreparation(env, sys, pid, e);
    assert HonestAt(env, sys, pid);
    if p.Persisting? {
      HonestPersist(env, sys, pid, p.input);
    } else if p.Replacing? {
      HonestReplace(env, sys, pid, p.priorId, p.input, p.abandonedAt);
    } else {
      if (p.Preparing? || p.RefreshPreparing?) && e.signed.Some? {
        PersistenceReadsBack(env, p.identity, e.signed.value, e.now);
      }
      PreparingMovesOn(env, sys, pid, e);
      HonestMove(env, sys, next, pid);
    }
  }

  lemma ReconciledKeepsInputs(s: Store, v: ReconciliationEvidence)
    requires Valid(s) && MayReconcile(s, v)
    ensures Reconciled(s, v).submissions == s.submissions
    ensures forall k :: k in Reconciled(s, v).preparations ==>
              k in s.preparations && Reconciled(s, v).preparations[k].input == s.preparations[k].input
  {
  }

  lemma HonestReconciled(env: Environment, sys: System, pid: nat, v: ReconciliationEvidence, fence: Fence)
    requires Honest(env, sys) && Valid(sys.store)
    ensures Honest(env, End(sys.(store := RecordReconciliation(sys.store, v, fence).0), pid))
  {
    var next := End(sys.(store := RecordReconciliation(sys.store, v, fence).0), pid);
    if next.store != sys.store {
      ReconcileEffect(sys.store, v, fence);
      ReconciledKeepsInputs(sys.store, v);
    }
    HonestStepKeeps(env, sys, next, pid);
  }

  lemma HonestReconciliation(env: Environment, sys: System, pid: nat, e: Event)
    requires Honest(env, sys) && Valid(sys.store) && pid in sys.processes && IsReconciling(sys.processes[pid])
    ensures Honest(env, AdvanceReconciliation(env, sys, pid, e))
  {
    var p := sys.processes[pid];
    if p.ReconcileRecording? {
      HonestReconciled(env, sys, pid, p.record, p.fence);
    } else {
      ReconcilingMovesOn(env, sys, pid, e);
      HonestMove(env, sys, AdvanceReconciliation(env, sys, pid, e), pid);
    }
  }

  lemma HonestAwait(env: Environment, sys: System, pid: nat, e: Event)
    requires Honest(env, sys) && pid in sys.processes
    requires var p := sys.processes[pid]; p.SubmitFinding? || p.Sending? || p.Awaiting?
    ensures Honest(env, Advance(env, sys, pid, e))
  {
    assert HonestAt(env, sys, pid);
    HonestStepKeeps(env, sys, Advance(env, sys, pid, e), pid);
  }

  lemma HonestAdvance(env: Environment, sys: System, pid: nat, e: Event)
    requires LawfulCipher(env) && HonestStep(env, Resume(pid, e))
    requires Honest(env, sys) && Valid(sys.store) && pid in sys.processes
    ensures Honest(env, Advance(env, sys, pid, e))
  {
    var p, next := sys.processes[pid], Advance(env, sys, pid, e);
    assert HonestAt(env, sys, pid);
    if p.Committing? {
      HonestCommit(env, sys, pid, p.commit, e);
    } else if p.RecordingOutcome? || p.RecordingLast? {
      HonestRecord(env, sys, next, pid, p.evidence, p.grant.actorSubject);
    } else if p.SubmitFinding? || p.Sending? || p.Awaiting? {
      HonestAwait(env, sys, pid, e);
    } else {
      if IsReconciling(p) { HonestReconciliation(env, sys, pid, e); } else { HonestPreparation(env, sys, pid, e); }
    }
  }

  lemma HonestTake(env: Environment, sys: System, step: Step)
    requires LawfulCipher(env) && HonestStep(env, step) && Honest(env, sys) && Valid(sys.store)
    ensures Honest(env, Take(env, sys, step))
  {
    if step.Resume? && step.pid in sys.processes { HonestAdvance(env, sys, step.pid, step.event); }
    else {
      assert HonestAt(env, sys, step.pid);
      HonestStepKeeps(env, sys, Take(env, sys, step), step.pid);
    }
  }

  lemma {:induction false} HonestRun(env: Environment, steps: seq<Step>)
    requires LawfulCipher(env) && HonestPreparer(env, steps)
    ensures Honest(env, Run(env, steps))
  {
    if steps != [] {
      HonestRun(env, steps[..|steps| - 1]);
      RunIsSafe(env, steps[..|steps| - 1]);
      HonestTake(env, Run(env, steps[..|steps| - 1]), steps[|steps| - 1]);
    }
  }

  /** Every stored preparation reads back, and no execution ever records a validation failure. */
  lemma CommittedBytesAlwaysReadBack(env: Environment, steps: seq<Step>, k: Id, e: Id)
    requires LawfulCipher(env) && HonestPreparer(env, steps)
    ensures k in Run(env, steps).store.preparations ==>
              Reconstruct(env, Run(env, steps).store.preparations[k].input).Some?
    ensures forall v :: v in SubmissionLog(Run(env, steps).store, e) ==> !v.outcome.ValidationFailed?
  {
    HonestRun(env, steps);
    assert Readable(env, Run(env, steps).store.preparations, k);
    assert NeverInvalid(Run(env, steps).store, e);
  }
}
