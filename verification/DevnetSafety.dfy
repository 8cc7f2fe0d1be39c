/** Submit at most once: what holds over every interleaving of the Devnet clients, crashes included. */
module DevnetSafety {
  import opened Wrappers
  import opened DevnetLifecycle
  import opened DevnetStore
  import opened DevnetStoreInvariant
  import opened DevnetStoreRuns
  import opened DevnetObservation
  import opened DevnetProtocol

  // ---- the invariant -------------------------------------------------------------------------------

  predicate Holds(p: Process) { p.Sending? || p.Awaiting? || p.RecordingOutcome? || p.RecordingLast? }

  function Executes(p: Process): Id
    requires Holds(p)
  {
    p.grant.commitment.executionId
  }

  /** A process that holds the authority of an execution: it is for the stored commitment, not yet answered. */
  ghost predicate HolderOk(env: Environment, sys: System, pid: nat) {
    pid in sys.processes && Holds(sys.processes[pid]) ==>
      var p := sys.processes[pid];
      && Executes(p) in sys.store.commitments && sys.store.commitments[Executes(p)] == p.grant.commitment
      && p.grant.commitment.preparationId == p.grant.preparationId
      && SubmissionLog(sys.store, Executes(p)) == []
      && (p.Sending? ==> env.digest(p.transaction) == p.grant.commitment.signedTransactionDigest)
      && (p.RecordingOutcome? || p.RecordingLast? ==> p.evidence.executionId == Executes(p))
  }

  ghost predicate HoldersApart(sys: System, p: nat, q: nat) {
    (p in sys.processes && q in sys.processes && Holds(sys.processes[p]) && Holds(sys.processes[q])
     && Executes(sys.processes[p]) == Executes(sys.processes[q])) ==> p == q
  }

  /** Every contact is for a stored commitment and carries bytes with the committed digest. */
  ghost predicate ContactOk(env: Environment, sys: System, i: nat) {
    i < |sys.contacts| ==>
      sys.contacts[i].executionId in sys.store.commitments
      && env.digest(sys.contacts[i].transaction)
         == sys.store.commitments[sys.contacts[i].executionId].signedTransactionDigest
  }

  ghost predicate ContactsApart(sys: System, i: nat, j: nat) {
    i < |sys.contacts| && j < |sys.contacts| && sys.contacts[i].executionId == sys.contacts[j].executionId ==> i == j
  }

  ghost predicate NotYetSent(sys: System, pid: nat, i: nat) {
    pid in sys.processes && sys.processes[pid].Sending? && i < |sys.contacts| ==>
      sys.contacts[i].executionId != Executes(sys.processes[pid])
  }

  ghost predicate OneSubmission(s: Store, e: Id) { |SubmissionLog(s, e)| <= 1 }

  ghost predicate Safe(env: Environment, sys: System) {
    && Valid(sys.store)
    && (forall p {:trigger HolderOk(env, sys, p)} :: HolderOk(env, sys, p))
    && (forall p, q {:trigger HoldersApart(sys, p, q)} :: HoldersApart(sys, p, q))
    && (forall i {:trigger ContactOk(env, sys, i)} :: ContactOk(env, sys, i))
    && (forall i, j {:trigger ContactsApart(sys, i, j)} :: ContactsApart(sys, i, j))
    && (forall p, i {:trigger NotYetSent(sys, p, i)} :: NotYetSent(sys, p, i))
    && (forall e {:trigger OneSubmission(sys.store, e)} :: OneSubmission(sys.store, e))
  }

  // ---- steps that leave authority alone ---------------------------------------------------------------

  /** The next system differs from sys only in processes without authority and in parts safety ignores. */
  ghost predicate Quiet(sys: System, next: System) {
    && next.contacts == sys.contacts && Valid(next.store)
    && next.store.commitments == sys.store.commitments && next.store.submissions == sys.store.submissions
    && forall p :: p in next.processes && Holds(next.processes[p]) ==>
         p in sys.processes && next.processes[p] == sys.processes[p]
  }

  lemma QuietKeepsSafe(env: Environment, sys: System, next: System)
    requires Safe(env, sys) && Quiet(sys, next)
    ensures Safe(env, next)
  {
    forall p ensures HolderOk(env, next, p) { assert HolderOk(env, sys, p); }
    forall p, q ensures HoldersApart(next, p, q) { assert HoldersApart(sys, p, q); }
    forall i ensures ContactOk(env, next, i) { assert ContactOk(env, sys, i); }
    forall i, j ensures ContactsApart(next, i, j) { assert ContactsApart(sys, i, j); }
    forall p, i ensures NotYetSent(next, p, i) { assert NotYetSent(sys, p, i); }
    forall e ensures OneSubmission(next.store, e) { assert OneSubmission(sys.store, e); }
  }

  lemma StoreStepIsQuiet(sys: System, pid: nat, store: Store)
    requires Valid(store) && store.commitments == sys.store.commitments && store.submissions == sys.store.submissions
    ensures Quiet(sys, End(sys.(store := store), pid))
  {
  }

  lemma PersistIsQuiet(sys: System, pid: nat, input: PreparationInput)
    requires Valid(sys.store)
    ensures Quiet(sys, End(sys.(store := DevnetStore.PersistPreparation(sys.store, input).0), pid))
  {
    PersistValid(sys.store, input);
    StoreStepIsQuiet(sys, pid, DevnetStore.PersistPreparation(sys.store, input).0);
  }

  lemma ReplaceIsQuiet(sys: System, pid: nat, priorId: Id, input: PreparationInput, at: Timestamp)
    requires Valid(sys.store)
    ensures Quiet(sys, End(sys.(store := DevnetStore.ReplaceExpiredPreparation(sys.store, priorId, input, at).0), pid))
  {
    ReplaceValid(sys.store, priorId, input, at);
    StoreStepIsQuiet(sys, pid, DevnetStore.ReplaceExpiredPreparation(sys.store, priorId, input, at).0);
  }

  lemma ReconcileIsQuiet(sys: System, pid: nat, v: ReconciliationEvidence, fence: Fence)
    requires Valid(sys.store)
    ensures Quiet(sys, End(sys.(store := RecordReconciliation(sys.store, v, fence).0), pid))
  {
    ReconcileValid(sys.store, v, fence);
    if RecordReconciliation(sys.store, v, fence).0 != sys.store { ReconcileEffect(sys.store, v, fence); }
    StoreStepIsQuiet(sys, pid, RecordReconciliation(sys.store, v, fence).0);
  }

  lemma MovingOnIsQuiet(sys: System, next: System, pid: nat)
    requires Valid(sys.store) && MovesOn(sys, next, pid)
    requires pid in next.processes && next != End(sys, pid) ==> !Holds(next.processes[pid])
    ensures Quiet(sys, next)
  {
  }

  lemma PreparationIsQuiet(env: Environment, sys: System, pid: nat, e: Event)
    requires Valid(sys.store) && pid in sys.processes && IsPreparing(sys.processes[pid])
    ensures Quiet(sys, AdvancePreparation(env, sys, pid, e))
  {
    var p := sys.processes[pid];
    if p.Persisting? {
      PersistIsQuiet(sys, pid, p.input);
    } else if p.Replacing? {
      ReplaceIsQuiet(sys, pid, p.priorId, p.input, p.abandonedAt);
    } else {
      PreparingMovesOn(env, sys, pid, e);
      MovingOnIsQuiet(sys, AdvancePreparation(env, sys, pid, e), pid);
    }
  }

  lemma ReconciliationIsQuiet(env: Environment, sys: System, pid: nat, e: Event)
    requires Valid(sys.store) && pid in sys.processes && IsReconciling(sys.processes[pid])
    ensures Quiet(sys, AdvanceReconciliation(env, sys, pid, e))
  {
    var p := sys.processes[pid];
    if p.ReconcileRecording? {
      ReconcileIsQuiet(sys, pid, p.record, p.fence);
    } else {
      ReconcilingMovesOn(env, sys, pid, e);
      MovingOnIsQuiet(sys, AdvanceReconciliation(env, sys, pid, e), pid);
    }
  }

  // ---- the steps of a submission -----------------------------------------------------------------------

  /** The fresh commitment's authority goes to one process, before which nobody held it or made contact. */
  lemma GrantKeepsSafe(env: Environment, sys: System, pid: nat, r: CommitRequest, p: Process)
    requires Safe(env, sys) && pid in sys.processes && !Holds(sys.processes[pid])
    requires CommitSubmission(sys.store, r).1.Ok? && CommitSubmission(sys.store, r).1.value.submissionAuthorized
    requires p.Sending? || p.RecordingLast?
    requires p.grant == Grant(CommitSubmission(sys.store, r).1.value.commitment, r.preparationId, r.actorSubject)
    requires p.Sending? ==> env.digest(p.transaction) == p.grant.commitment.signedTransactionDigest
    requires p.RecordingLast? ==> p.evidence.executionId == r.executionId
    ensures Safe(env, Move(sys.(store := CommitSubmission(sys.store, r).0), pid, p))
  {
    var next := Move(sys.(store := CommitSubmission(sys.store, r).0), pid, p);
    CommitValid(sys.store, r);
    NothingBeforeCommitment(env, sys, r.executionId);
    forall q ensures HolderOk(env, next, q) { assert HolderOk(env, sys, q); }
    forall q, o ensures HoldersApart(next, q, o) { assert HoldersApart(sys, q, o); }
    forall i ensures ContactOk(env, next, i) { assert ContactOk(env, sys, i); }
    forall i, j ensures ContactsApart(next, i, j) { assert ContactsApart(sys, i, j); }
    forall q, i ensures NotYetSent(next, q, i) { assert NotYetSent(sys, q, i); }
    forall e ensures OneSubmission(next.store, e) { assert OneSubmission(sys.store, e); }
  }

  lemma NothingBeforeCommitment(env: Environment, sys: System, e: Id)
    requires Safe(env, sys) && e !in sys.store.commitments
    ensures SubmissionLog(sys.store, e) == []
    ensures forall p :: p in sys.processes && Holds(sys.processes[p]) ==> Executes(sys.processes[p]) != e
    ensures forall i :: 0 <= i < |sys.contacts| ==> sys.contacts[i].executionId != e
  {
    forall p | p in sys.processes && Holds(sys.processes[p]) ensures Executes(sys.processes[p]) != e {
      assert HolderOk(env, sys, p);
    }
    forall i | 0 <= i < |sys.contacts| ensures sys.contacts[i].executionId != e { assert ContactOk(env, sys, i); }
  }

  lemma CommitKeepsSafe(env: Environment, sys: System, pid: nat, r: CommitRequest, e: Event)
    requires Safe(env, sys) && pid in sys.processes && !Holds(sys.processes[pid])
    ensures Safe(env, AdvanceCommit(env, sys, pid, r, e))
  {
    var (store, reply) := CommitSubmission(sys.store, r);
    if reply.Err? || !reply.value.submissionAuthorized {
      assert store == sys.store;
      QuietKeepsSafe(env, sys, End(sys, pid));
    } else {
      var g := Grant(reply.value.commitment, r.preparationId, r.actorSubject);
      var last := RecordingLast(g, InvalidEvidence(env, g, e));
      GrantKeepsSafe(env, sys, pid, r, last);
      match Reconstruct(env, reply.value.preparation.input)
      case None =>
      case Some(transaction) =>
        if e.authorized {
          GrantKeepsSafe(env, sys, pid, r, Sending(g, transaction));
        } else {
          var granted := Move(sys.(store := store), pid, last);
          QuietKeepsSafe(env, granted, End(sys.(store := store), pid));
        }
    }
  }

  /** Moving a holder on with the same grant, without touching the store. */
  lemma HolderMoves(env: Environment, sys: System, pid: nat, p: Process)
    requires Safe(env, sys) && pid in sys.processes && Holds(sys.processes[pid])
    requires Holds(p) && p.grant == sys.processes[pid].grant && !p.Sending?
    requires p.RecordingOutcome? || p.RecordingLast? ==> p.evidence.executionId == Executes(p)
    ensures Safe(env, Move(sys, pid, p))
  {
    var next := Move(sys, pid, p);
    forall q ensures HolderOk(env, next, q) { assert HolderOk(env, sys, q); }
    forall q, o ensures HoldersApart(next, q, o) { assert HoldersApart(sys, q, o); }
    forall i ensures ContactOk(env, next, i) { assert ContactOk(env, sys, i); }
    forall i, j ensures ContactsApart(next, i, j) { assert ContactsApart(sys, i, j); }
    forall q, i ensures NotYetSent(next, q, i) { assert NotYetSent(sys, q, i); }
    forall e ensures OneSubmission(next.store, e) { assert OneSubmission(sys.store, e); }
  }

  lemma SendKeepsSafe(env: Environment, sys: System, pid: nat)
    requires Safe(env, sys) && pid in sys.processes && sys.processes[pid].Sending?
    ensures var p := sys.processes[pid];
            Safe(env, Move(sys, pid, Awaiting(p.grant))
                        .(contacts := sys.contacts + [Contact(Executes(p), p.transaction)]))
  {
    var p := sys.processes[pid];
    var moved := Move(sys, pid, Awaiting(p.grant));
    var next := moved.(contacts := sys.contacts + [Contact(Executes(p), p.transaction)]);
    HolderMoves(env, sys, pid, Awaiting(p.grant));
    assert HolderOk(env, sys, pid);
    forall q ensures HolderOk(env, next, q) { assert HolderOk(env, moved, q); }
    forall q, o ensures HoldersApart(next, q, o) { assert HoldersApart(moved, q, o); }
    forall i ensures ContactOk(env, next, i) { assert ContactOk(env, moved, i); }
    forall i, j ensures ContactsApart(next, i, j) {
      assert ContactsApart(moved, i, j) && NotYetSent(sys, pid, i) && NotYetSent(sys, pid, j);
    }
    forall q, i ensures NotYetSent(next, q, i) { assert NotYetSent(moved, q, i) && HoldersApart(sys, q, pid); }
    forall e ensures OneSubmission(next.store, e) { assert OneSubmission(moved.store, e); }
  }

  /** Recording ends the authority, so the execution's submission log gets its first entry or none. */
  lemma RecordKeepsSafe(env: Environment, sys: System, pid: nat)
    requires Safe(env, sys) && pid in sys.processes
    requires sys.processes[pid].RecordingOutcome? || sys.processes[pid].RecordingLast?
    ensures var p := sys.processes[pid];
            Safe(env, End(sys.(store := RecordSubmission(sys.store, p.evidence, p.grant.actorSubject).0), pid))
  {
    var p := sys.processes[pid];
    var next := End(sys.(store := RecordSubmission(sys.store, p.evidence, p.grant.actorSubject).0), pid);
    SubmitValid(sys.store, p.evidence, p.grant.actorSubject);
    if next.store == sys.store {
      QuietKeepsSafe(env, sys, next);
    } else {
      SubmitEffect(sys.store, p.evidence, p.grant.actorSubject);
      assert HolderOk(env, sys, pid);
      RecordedKeepsSafe(env, sys, pid, next);
    }
  }

  lemma RecordedKeepsSafe(env: Environment, sys: System, pid: nat, next: System)
    requires Safe(env, sys) && pid in sys.processes && Holds(sys.processes[pid]) && Valid(next.store)
    requires next.processes == sys.processes - {pid} && next.contacts == sys.contacts
    requires next.store.commitments == sys.store.commitments
    requires |SubmissionLog(next.store, Executes(sys.processes[pid]))| == 1
    requires forall e :: e != Executes(sys.processes[pid]) ==>
               SubmissionLog(next.store, e) == SubmissionLog(sys.store, e)
    ensures Safe(env, next)
  {
    forall q ensures HolderOk(env, next, q) { assert HolderOk(env, sys, q) && HoldersApart(sys, q, pid); }
    forall q, o ensures HoldersApart(next, q, o) { assert HoldersApart(sys, q, o); }
    forall i ensures ContactOk(env, next, i) { assert ContactOk(env, sys, i); }
    forall i, j ensures ContactsApart(next, i, j) { assert ContactsApart(sys, i, j); }
    forall q, i ensures NotYetSent(next, q, i) { assert NotYetSent(sys, q, i); }
    forall e ensures OneSubmission(next.store, e) { assert OneSubmission(sys.store, e); }
  }

  lemma RefusedRecordMovesOn(env: Environment, sys: System, pid: nat, e: Event)
    requires Safe(env, sys) && pid in sys.processes && sys.processes[pid].RecordingOutcome?
    requires RecordSubmission(sys.store, sys.processes[pid].evidence, sys.processes[pid].grant.actorSubject).1.Err?
    ensures Safe(env, Advance(env, sys, pid, e))
  {
    var p := sys.processes[pid];
    assert RecordSubmission(sys.store, p.evidence, p.grant.actorSubject).0 == sys.store;
    HolderMoves(env, sys, pid, RecordingLast(p.grant, UnknownEvidence(env, p.grant, e)));
  }

  lemma AdvanceKeepsSafe(env: Environment, sys: System, pid: nat, e: Event)
    requires Safe(env, sys) && pid in sys.processes
    ensures Safe(env, Advance(env, sys, pid, e))
  {
    var p, next := sys.processes[pid], Advance(env, sys, pid, e);
    if p.Committing? {
      CommitKeepsSafe(env, sys, pid, p.commit, e);
    } else if p.Sending? {
      if e.reached { SendKeepsSafe(env, sys, pid); }
      else { HolderMoves(env, sys, pid, RecordingLast(p.grant, UnknownEvidence(env, p.grant, e))); }
    } else if p.Awaiting? {
      HolderMoves(env, sys, pid, next.processes[pid]);
    } else if p.RecordingOutcome? {
      if RecordSubmission(sys.store, p.evidence, p.grant.actorSubject).1.Err? {
        RefusedRecordMovesOn(env, sys, pid, e);
      } else {
        RecordKeepsSafe(env, sys, pid);
      }
    } else if p.RecordingLast? {
      RecordKeepsSafe(env, sys, pid);
    } else {
      if p.SubmitFinding? { assert Quiet(sys, next); }
      else if IsPreparing(p) { PreparationIsQuiet(env, sys, pid, e); }
      else { ReconciliationIsQuiet(env, sys, pid, e); }
      QuietKeepsSafe(env, sys, next);
    }
  }

  lemma TakeKeepsSafe(env: Environment, sys: System, step: Step)
    requires Safe(env, sys)
    ensures Safe(env, Take(env, sys, step))
  {
    if step.Resume? && step.pid in sys.processes { AdvanceKeepsSafe(env, sys, step.pid, step.event); }
    else { QuietKeepsSafe(env, sys, Take(env, sys, step)); }
  }

  // ---- runs ------------------------------------------------------------------------------------------

  lemma InitialIsSafe(env: Environment)
    ensures Safe(env, INITIAL)
  {
  }

  function Run(env: Environment, steps: seq<Step>): System {
    if steps == [] then INITIAL else Take(env, Run(env, steps[..|steps| - 1]), steps[|steps| - 1])
  }

  lemma {:induction false} RunIsSafe(env: Environment, steps: seq<Step>)
    ensures Safe(env, Run(env, steps))
  {
    if steps == [] { InitialIsSafe(env); }
    else {
      RunIsSafe(env, steps[..|steps| - 1]);
      TakeKeepsSafe(env, Run(env, steps[..|steps| - 1]), steps[|steps| - 1]);
    }
  }

  /**
   Over every interleaving and every crash the submission provider is reached at most once per execution,
   and no two executions ever send bytes with the same digest.
   */
  lemma SubmittedAtMostOnce(env: Environment, steps: seq<Step>, i: nat, j: nat)
    requires i < |Run(env, steps).contacts| && j < |Run(env, steps).contacts| && i != j
    ensures var contacts := Run(env, steps).contacts;
            contacts[i].executionId != contacts[j].executionId
            && env.digest(contacts[i].transaction) != env.digest(contacts[j].transaction)
  {
    RunIsSafe(env, steps);
    ContactsDiffer(env, Run(env, steps), i, j);
  }

  lemma ContactsDiffer(env: Environment, sys: System, i: nat, j: nat)
    requires Safe(env, sys) && i < |sys.contacts| && j < |sys.contacts| && i != j
    ensures sys.contacts[i].executionId != sys.contacts[j].executionId
    ensures env.digest(sys.contacts[i].transaction) != env.digest(sys.contacts[j].transaction)
  {
    assert ContactsApart(sys, i, j) && ContactOk(env, sys, i) && ContactOk(env, sys, j);
    DigestsDiffer(sys.store, sys.contacts[i].executionId, sys.contacts[j].executionId);
  }

  lemma DigestsDiffer(s: Store, e: Id, f: Id)
    requires Valid(s) && e in s.commitments && f in s.commitments && e != f
    ensures s.commitments[e].signedTransactionDigest != s.commitments[f].signedTransactionDigest
  {
    assert Matches(s.preparations, s.commitments, e) && Matches(s.preparations, s.commitments, f);
    assert Distinct(s.preparations, s.commitments[e].preparationId, s.commitments[f].preparationId);
  }

  /**
   A step that reaches the provider finds the commitment already stored, for the live preparation, and
   sends bytes whose digest is the committed one.
   */
  lemma ContactFollowsCommitment(env: Environment, steps: seq<Step>, step: Step)
    requires Take(env, Run(env, steps), step).contacts != Run(env, steps).contacts
    ensures var before, after := Run(env, steps), Take(env, Run(env, steps), step);
            && |after.contacts| == |before.contacts| + 1
            && var c := after.contacts[|before.contacts|];
               c.executionId in before.store.commitments
               && var commitment := before.store.commitments[c.executionId];
                  commitment.preparationId in before.store.preparations
                  && IsLive(before.store.preparations[commitment.preparationId], c.executionId)
                  && env.digest(c.transaction) == commitment.signedTransactionDigest
                  && commitment.signedTransactionDigest
                     == before.store.preparations[commitment.preparationId].input.artifact.signedTransactionDigest
  {
    var sys := Run(env, steps);
    RunIsSafe(env, steps);
    assert step.Resume? && step.pid in sys.processes;
    SendingOnly(env, sys, step.pid, step.event);
    assert HolderOk(env, sys, step.pid);
    assert Matches(sys.store.preparations, sys.store.commitments, Executes(sys.processes[step.pid]));
  }

  lemma SendingOnly(env: Environment, sys: System, pid: nat, e: Event)
    requires Valid(sys.store) && pid in sys.processes && Advance(env, sys, pid, e).contacts != sys.contacts
    ensures sys.processes[pid].Sending? && e.reached
    ensures Advance(env, sys, pid, e).contacts
            == sys.contacts + [Contact(Executes(sys.processes[pid]), sys.processes[pid].transaction)]
  {
  }

  /** Runs driven by these clients record at most one submission per execution. */
  lemma AtMostOneSubmissionRecorded(env: Environment, steps: seq<Step>, e: Id)
    ensures |SubmissionLog(Run(env, steps).store, e)| <= 1
  {
    RunIsSafe(env, steps);
    assert OneSubmission(Run(env, steps).store, e);
  }
}
