/**
 Where every recorded submission outcome comes from, and what it has to be: over every interleaving and every crash
 an acceptance is what the provider answered, and a send whose answer never came is recorded as unknown or not at all.
 */
module DevnetOutcomes {
  import opened Wrappers
  import opened DevnetLifecycle
  import opened DevnetStore
  import opened DevnetStoreInvariant
  import opened DevnetProtocol
  import opened DevnetSafety

  // ---- the three kinds of entry ----------------------------------------------------------------------

  predicate IsAnswer(a: TransportAnswer, v: SubmissionEvidence) {
    v.certainty.ContactAccepted? && v.providerErrorCode.None? &&
    match a
    case TransportThrew => false
    case TransportAccepted(at) =>
      v.outcome.SubmissionAccepted? && v.observedAt == at && v.slot.None? && v.confirmationStatus.None?
    case TransportSettled(at, slot, status) =>
      v.outcome.SubmissionSettled? && v.observedAt == at && v.slot == Some(slot)
      && v.confirmationStatus == Some(status)
  }

  predicate IsLost(v: SubmissionEvidence) {
    && v.outcome.SubmissionUnknown? && v.certainty.MayHaveOccurred? && v.slot.None? && v.confirmationStatus.None?
    && v.providerErrorCode == Some("SUBMISSION_RESPONSE_UNAVAILABLE")
  }

  predicate IsInvalid(v: SubmissionEvidence) {
    && v.outcome.ValidationFailed? && v.certainty.NotStarted? && v.slot.None? && v.confirmationStatus.None?
    && v.providerErrorCode == Some("PERSISTED_ARTIFACT_INVALID")
  }

  /** The stored envelope decrypts to bytes with the prepared digest. */
  predicate ReadsBack(env: Environment, input: PreparationInput) {
    var t := env.decrypt(input.envelope, Context(input.executionId, input.preparationId, input.envelope.keyVersion));
    t.Some? && env.digest(t.value) == input.artifact.signedTransactionDigest
  }

  // ---- what causes an entry --------------------------------------------------------------------------

  predicate Names(env: Environment, g: Grant, v: SubmissionEvidence) {
    && v.executionId == g.commitment.executionId && v.preparationId == g.preparationId
    && v.commitmentId == g.commitment.commitmentId && v.signature == g.commitment.signature
    && v.providerId == env.submissionProviderId
  }

  /** The step tells the process that contacted the provider what the provider answered. */
  predicate Reports(env: Environment, sys: System, step: Step, v: SubmissionEvidence) {
    && step.Resume? && step.pid in sys.processes && sys.processes[step.pid].Awaiting?
    && Names(env, sys.processes[step.pid].grant, v) && v.observationId == step.event.observationId
    && IsAnswer(step.event.answer, v)
  }

  /** The send did not get through, its answer was an exception, or the store refused the answer. */
  predicate Fails(sys: System, p: Process, e: Event) {
    || (p.Sending? && !e.reached) || (p.Awaiting? && e.answer.TransportThrew?)
    || (p.RecordingOutcome? && RecordSubmission(sys.store, p.evidence, p.grant.actorSubject).1.Err?)
  }

  predicate Loses(env: Environment, sys: System, step: Step, v: SubmissionEvidence) {
    && step.Resume? && step.pid in sys.processes && Fails(sys, sys.processes[step.pid], step.event)
    && Names(env, sys.processes[step.pid].grant, v) && v.observationId == step.event.observationId
    && v.observedAt == step.event.now && IsLost(v)
  }

  /** The step commits an execution whose stored bytes do not read back. */
  predicate Invalidates(env: Environment, sys: System, step: Step, v: SubmissionEvidence) {
    && step.Resume? && step.pid in sys.processes && sys.processes[step.pid].Committing?
    && var r := sys.processes[step.pid].commit;
       && r.executionId !in sys.store.commitments && r.preparationId in sys.store.preparations
       && !ReadsBack(env, sys.store.preparations[r.preparationId].input)
       && v.executionId == r.executionId && v.preparationId == r.preparationId && v.commitmentId == r.commitmentId
       && v.observationId == step.event.observationId && v.observedAt == step.event.now && IsInvalid(v)
  }

  predicate Causes(env: Environment, sys: System, step: Step, v: SubmissionEvidence) {
    Reports(env, sys, step, v) || Loses(env, sys, step, v) || Invalidates(env, sys, step, v)
  }

  // ---- one step --------------------------------------------------------------------------------------

  predicate Carries(p: Process) { p.RecordingOutcome? || p.RecordingLast? }

  ghost predicate CarriedIn(sys: System, good: SubmissionEvidence -> bool, pid: nat) {
    pid in sys.processes && Carries(sys.processes[pid]) ==> good(sys.processes[pid].evidence)
  }

  ghost predicate LoggedIn(s: Store, good: SubmissionEvidence -> bool, e: Id) {
    forall i :: 0 <= i < |SubmissionLog(s, e)| ==> good(SubmissionLog(s, e)[i])
  }

  /** Every outcome on record, or about to be, is a good one. */
  ghost predicate Sourced(sys: System, good: SubmissionEvidence -> bool) {
    && (forall pid {:trigger CarriedIn(sys, good, pid)} :: CarriedIn(sys, good, pid))
    && (forall e {:trigger LoggedIn(sys.store, good, e)} :: LoggedIn(sys.store, good, e))
  }

  lemma SourcedWidens(sys: System, good: SubmissionEvidence -> bool, wider: SubmissionEvidence -> bool)
    requires Sourced(sys, good) && forall v :: good(v) ==> wider(v)
    ensures Sourced(sys, wider)
  {
    forall pid ensures CarriedIn(sys, wider, pid) { assert CarriedIn(sys, good, pid); }
    forall e ensures LoggedIn(sys.store, wider, e) { assert LoggedIn(sys.store, good, e); }
  }

  /** A step that leaves the log alone and moves one process on, to an outcome that is good. */
  lemma MoveSources(sys: System, next: System, pid: nat, good: SubmissionEvidence -> bool)
    requires Sourced(sys, good) && next.store.submissions == sys.store.submissions
    requires forall q :: q in next.processes && q != pid && Carries(next.processes[q]) ==>
               q in sys.processes && next.processes[q] == sys.processes[q]
    requires pid in next.processes && Carries(next.processes[pid]) ==> good(next.processes[pid].evidence)
    ensures Sourced(next, good)
  {
    forall q ensures CarriedIn(next, good, q) { assert CarriedIn(sys, good, q); }
    forall e ensures LoggedIn(next.store, good, e) {
      assert LoggedIn(sys.store, good, e) && SubmissionLog(next.store, e) == SubmissionLog(sys.store, e);
    }
  }

  lemma RecordSources(sys: System, pid: nat, good: SubmissionEvidence -> bool)
    requires Sourced(sys, good) && pid in sys.processes && Carries(sys.processes[pid])
    ensures var p := sys.processes[pid];
            Sourced(End(sys.(store := RecordSubmission(sys.store, p.evidence, p.grant.actorSubject).0), pid), good)
  {
    var p := sys.processes[pid];
    var next := End(sys.(store := RecordSubmission(sys.store, p.evidence, p.grant.actorSubject).0), pid);
    assert CarriedIn(sys, good, pid);
    forall q ensures CarriedIn(next, good, q) { assert CarriedIn(sys, good, q); }
    if next.store != sys.store { SubmitEffect(sys.store, p.evidence, p.grant.actorSubject); }
    forall e ensures LoggedIn(next.store, good, e) {
      assert LoggedIn(sys.store, good, e);
      assert SubmissionLog(next.store, e) == SubmissionLog(sys.store, e)
             || SubmissionLog(next.store, e) == SubmissionLog(sys.store, e) + [p.evidence];
    }
  }

  lemma CommitSources(env: Environment, sys: System, pid: nat, e: Event, good: SubmissionEvidence -> bool)
    requires Sourced(sys, good) && pid in sys.processes && sys.processes[pid].Committing?
    requires forall v :: Invalidates(env, sys, Resume(pid, e), v) ==> good(v)
    ensures Sourced(Advance(env, sys, pid, e), good)
  {
    MoveSources(sys, Advance(env, sys, pid, e), pid, good);
  }

  lemma HolderSources(env: Environment, sys: System, pid: nat, e: Event, good: SubmissionEvidence -> bool)
    requires Sourced(sys, good) && pid in sys.processes && Holds(sys.processes[pid])
    requires forall v :: Reports(env, sys, Resume(pid, e), v) || Loses(env, sys, Resume(pid, e), v) ==> good(v)
    ensures Sourced(Advance(env, sys, pid, e), good)
  {
    var p := sys.processes[pid];
    if p.RecordingLast? || (p.RecordingOutcome? && !Fails(sys, p, e)) {
      RecordSources(sys, pid, good);
    } else {
      var next := Advance(env, sys, pid, e);
      if pid in next.processes && Carries(next.processes[pid]) {
        assert Reports(env, sys, Resume(pid, e), next.processes[pid].evidence)
               || Loses(env, sys, Resume(pid, e), next.processes[pid].evidence);
      }
      MoveSources(sys, next, pid, good);
    }
  }

  lemma QuietSources(sys: System, next: System, good: SubmissionEvidence -> bool)
    requires Sourced(sys, good) && Quiet(sys, next)
    ensures Sourced(next, good)
  {
    forall q ensures CarriedIn(next, good, q) { assert CarriedIn(sys, good, q); }
    forall e ensures LoggedIn(next.store, good, e) {
      assert LoggedIn(sys.store, good, e) && SubmissionLog(next.store, e) == SubmissionLog(sys.store, e);
    }
  }

  lemma StepSources(env: Environment, sys: System, step: Step, good: SubmissionEvidence -> bool)
    requires Valid(sys.store) && Sourced(sys, good)
    requires forall v :: Causes(env, sys, step, v) ==> good(v)
    ensures Sourced(Take(env, sys, step), good)
  {
    if step.Resume? && step.pid in sys.processes {
      var p := sys.processes[step.pid];
      if p.Committing? { CommitSources(env, sys, step.pid, step.event, good); }
      else if Holds(p) { HolderSources(env, sys, step.pid, step.event, good); }
      else {
        if p.SubmitFinding? { assert Quiet(sys, Advance(env, sys, step.pid, step.event)); }
        else if IsPreparing(p) { PreparationIsQuiet(env, sys, step.pid, step.event); }
        else { ReconciliationIsQuiet(env, sys, step.pid, step.event); }
        QuietSources(sys, Take(env, sys, step), good);
      }
    } else {
      QuietSources(sys, Take(env, sys, step), good);
    }
  }

  // ---- every run -------------------------------------------------------------------------------------

  predicate CausedAt(env: Environment, steps: seq<Step>, n: nat, v: SubmissionEvidence)
    requires n < |steps|
  {
    Causes(env, Run(env, steps[..n]), steps[n], v)
  }

  ghost predicate Caused(env: Environment, steps: seq<Step>, v: SubmissionEvidence) {
    exists n: nat :: n < |steps| && CausedAt(env, steps, n, v)
  }

  lemma CausedLater(env: Environment, steps: seq<Step>, v: SubmissionEvidence)
    requires steps != [] && (Caused(env, steps[..|steps| - 1], v) || CausedAt(env, steps, |steps| - 1, v))
    ensures Caused(env, steps, v)
  {
    if Caused(env, steps[..|steps| - 1], v) {
      var n: nat :| n < |steps| - 1 && CausedAt(env, steps[..|steps| - 1], n, v);
      assert steps[..|steps| - 1][..n] == steps[..n];
      assert CausedAt(env, steps, n, v);
    }
  }

  lemma {:induction false} RunIsSourced(env: Environment, steps: seq<Step>)
    ensures Sourced(Run(env, steps), v => Caused(env, steps, v))
  {
    if steps != [] {
      var n := |steps| - 1;
      RunIsSourced(env, steps[..n]);
      RunIsSafe(env, steps[..n]);
      forall v | Caused(env, steps[..n], v) || CausedAt(env, steps, n, v) ensures Caused(env, steps, v) {
        CausedLater(env, steps, v);
      }
      SourcedWidens(Run(env, steps[..n]), v => Caused(env, steps[..n], v), v => Caused(env, steps, v));
      forall v | Causes(env, Run(env, steps[..n]), steps[n], v) ensures Caused(env, steps, v) {
        assert CausedAt(env, steps, n, v);
      }
      StepSources(env, Run(env, steps[..n]), steps[n], v => Caused(env, steps, v));
    }
  }

  /**
   In every run an entry with an accepted contact is the answer the provider gave that execution's one send; an
   entry without knowledge of the contact comes from a send or answer that failed; and an entry of a contact never
   started comes from committed bytes that do not read back. There are no other entries.
   */
  lemma EntriesHaveCauses(env: Environment, steps: seq<Step>, e: Id, i: nat)
    requires i < |SubmissionLog(Run(env, steps).store, e)|
    ensures var v := SubmissionLog(Run(env, steps).store, e)[i];
            exists n: nat :: n < |steps| && CausedAt(env, steps, n, v)
              && (if v.certainty.ContactAccepted? then Reports(env, Run(env, steps[..n]), steps[n], v)
                  else if v.certainty.MayHaveOccurred? then Loses(env, Run(env, steps[..n]), steps[n], v)
                  else Invalidates(env, Run(env, steps[..n]), steps[n], v))
  {
    RunIsSourced(env, steps);
    assert LoggedIn(Run(env, steps).store, v => Caused(env, steps, v), e);
    assert Caused(env, steps, SubmissionLog(Run(env, steps).store, e)[i]);
  }

  // ---- what is decided at a step -----------------------------------------------------------------------

  /** What an execution's submission log may still get. */
  datatype Fate = Answered(answer: TransportAnswer) | Lost | Invalid | Silent

  predicate Fits(f: Fate, v: SubmissionEvidence) {
    match f
    case Answered(a) => IsAnswer(a, v) || IsLost(v)
    case Lost => IsLost(v)
    case Invalid => IsInvalid(v)
    case Silent => false
  }

  predicate HoldsFor(sys: System, pid: nat, e: Id) {
    pid in sys.processes && Holds(sys.processes[pid]) && Executes(sys.processes[pid]) == e
  }

  predicate Commits(sys: System, pid: nat, e: Id) {
    && pid in sys.processes && sys.processes[pid].Committing? && sys.processes[pid].commit.executionId == e
    && CommitSubmission(sys.store, sys.processes[pid].commit).0 != sys.store
    && sys.processes[pid].commit.preparationId in sys.store.preparations
  }

  predicate Readable(env: Environment, sys: System, pid: nat)
    requires pid in sys.processes && sys.processes[pid].Committing?
    requires sys.processes[pid].commit.preparationId in sys.store.preparations
  {
    ReadsBack(env, sys.store.preparations[sys.processes[pid].commit.preparationId].input)
  }

  /** The step settles what can be recorded for the execution. */
  predicate Decides(env: Environment, sys: System, step: Step, e: Id, f: Fate) {
    match f
    case Answered(a) =>
      step.Resume? && HoldsFor(sys, step.pid, e) && sys.processes[step.pid].Awaiting? && step.event.answer == a
      && !a.TransportThrew?
    case Lost => step.Resume? && HoldsFor(sys, step.pid, e) && Fails(sys, sys.processes[step.pid], step.event)
    case Invalid => step.Resume? && Commits(sys, step.pid, e) && !Readable(env, sys, step.pid)
    case Silent =>
      (step.Crash? && HoldsFor(sys, step.pid, e))
      || (step.Resume? && Commits(sys, step.pid, e) && Readable(env, sys, step.pid) && !step.event.authorized)
  }

  ghost predicate ConfinedAt(sys: System, e: Id, f: Fate, pid: nat) {
    HoldsFor(sys, pid, e) ==>
      && (sys.processes[pid].RecordingLast? || (sys.processes[pid].RecordingOutcome? && f.Answered?))
      && Fits(f, sys.processes[pid].evidence)
  }

  ghost predicate Confined(sys: System, e: Id, f: Fate) {
    && e in sys.store.commitments
    && (forall pid {:trigger ConfinedAt(sys, e, f, pid)} :: ConfinedAt(sys, e, f, pid))
    && forall i :: 0 <= i < |SubmissionLog(sys.store, e)| ==> Fits(f, SubmissionLog(sys.store, e)[i])
  }

  lemma Decided(env: Environment, sys: System, step: Step, e: Id, f: Fate)
    requires Safe(env, sys) && Decides(env, sys, step, e, f)
    ensures Confined(Take(env, sys, step), e, f)
  {
    if step.Resume? && sys.processes[step.pid].Committing? {
      CommitDecides(env, sys, step, e, f);
    } else {
      HolderDecides(env, sys, step, e, f);
    }
  }

  lemma CommitDecides(env: Environment, sys: System, step: Step, e: Id, f: Fate)
    requires Safe(env, sys) && Decides(env, sys, step, e, f) && step.Resume? && Commits(sys, step.pid, e)
    ensures Confined(Take(env, sys, step), e, f)
  {
    var next := Take(env, sys, step);
    NothingBeforeCommitment(env, sys, e);
    assert SubmissionLog(next.store, e) == SubmissionLog(sys.store, e);
    forall q ensures ConfinedAt(next, e, f, q) {}
  }

  lemma HolderDecides(env: Environment, sys: System, step: Step, e: Id, f: Fate)
    requires Safe(env, sys) && Decides(env, sys, step, e, f) && HoldsFor(sys, step.pid, e)
    ensures Confined(Take(env, sys, step), e, f)
  {
    var next := Take(env, sys, step);
    assert HolderOk(env, sys, step.pid);
    assert next.store == sys.store;
    forall q ensures ConfinedAt(next, e, f, q) { assert HoldersApart(sys, q, step.pid); }
  }

  /** Authority over a committed execution is never handed out again. */
  lemma StepKeepsConfined(env: Environment, sys: System, step: Step, e: Id, f: Fate)
    requires Safe(env, sys) && Confined(sys, e, f)
    ensures Confined(Take(env, sys, step), e, f)
    ensures forall i :: |sys.contacts| <= i < |Take(env, sys, step).contacts| ==>
              Take(env, sys, step).contacts[i].executionId != e
  {
    if step.Resume? && step.pid in sys.processes && !IsPreparing(sys.processes[step.pid])
       && !IsReconciling(sys.processes[step.pid]) {
      assert ConfinedAt(sys, e, f, step.pid);
      if Carries(sys.processes[step.pid]) { RecordKeepsConfined(env, sys, step, e, f); }
      else { SubmittingKeepsConfined(env, sys, step, e, f); }
    } else {
      if step.Resume? && step.pid in sys.processes {
        if IsPreparing(sys.processes[step.pid]) { PreparationIsQuiet(env, sys, step.pid, step.event); }
        else { ReconciliationIsQuiet(env, sys, step.pid, step.event); }
      }
      QuietKeepsConfined(sys, Take(env, sys, step), e, f);
    }
  }

  lemma QuietKeepsConfined(sys: System, next: System, e: Id, f: Fate)
    requires Confined(sys, e, f) && Quiet(sys, next)
    ensures Confined(next, e, f)
  {
    assert SubmissionLog(next.store, e) == SubmissionLog(sys.store, e);
    forall q ensures ConfinedAt(next, e, f, q) { assert ConfinedAt(sys, e, f, q); }
  }

  lemma SubmittingKeepsConfined(env: Environment, sys: System, step: Step, e: Id, f: Fate)
    requires Safe(env, sys) && Confined(sys, e, f) && step.Resume? && step.pid in sys.processes
    requires IsSubmitting(sys.processes[step.pid]) && !Carries(sys.processes[step.pid])
    ensures Confined(Take(env, sys, step), e, f)
    ensures forall i :: |sys.contacts| <= i < |Take(env, sys, step).contacts| ==>
              Take(env, sys, step).contacts[i].executionId != e
  {
    var next := Take(env, sys, step);
    assert ConfinedAt(sys, e, f, step.pid);
    NotHeldNext(env, sys, step.pid, step.event, e);
    SubmittingMovesItself(env, sys, step.pid, step.event);
    ProcessKeepsConfined(sys, next, step.pid, e, f);
  }

  /** A submission that does not hold a committed execution cannot come to hold it. */
  lemma NotHeldNext(env: Environment, sys: System, pid: nat, event: Event, e: Id)
    requires pid in sys.processes && IsSubmitting(sys.processes[pid]) && !Carries(sys.processes[pid])
    requires e in sys.store.commitments && !HoldsFor(sys, pid, e)
    ensures var next := Advance(env, sys, pid, event);
            && !HoldsFor(next, pid, e) && e in next.store.commitments
            && SubmissionLog(next.store, e) == SubmissionLog(sys.store, e)
            && forall i :: |sys.contacts| <= i < |next.contacts| ==> next.contacts[i].executionId != e
  {
  }

  lemma RecordKeepsConfined(env: Environment, sys: System, step: Step, e: Id, f: Fate)
    requires Safe(env, sys) && Confined(sys, e, f) && step.Resume? && step.pid in sys.processes
    requires Carries(sys.processes[step.pid])
    ensures Confined(Take(env, sys, step), e, f) && Take(env, sys, step).contacts == sys.contacts
  {
    var next, p := Take(env, sys, step), sys.processes[step.pid];
    var store := RecordSubmission(sys.store, p.evidence, p.grant.actorSubject).0;
    assert ConfinedAt(sys, e, f, step.pid) && HolderOk(env, sys, step.pid);
    RecordedConfines(sys, store, p.evidence, p.grant.actorSubject, e, f);
    ProcessKeepsConfined(sys, next, step.pid, e, f);
  }

  lemma RecordedConfines(sys: System, store: Store, v: SubmissionEvidence, actor: Id, e: Id, f: Fate)
    requires Confined(sys, e, f) && store == RecordSubmission(sys.store, v, actor).0
    requires v.executionId == e ==> Fits(f, v)
    ensures e in store.commitments
    ensures forall i :: 0 <= i < |SubmissionLog(store, e)| ==> Fits(f, SubmissionLog(store, e)[i])
  {
    if store != sys.store {
      SubmitEffect(sys.store, v, actor);
      assert SubmissionLog(store, e) == SubmissionLog(sys.store, e)
             || (v.executionId == e && SubmissionLog(store, e) == SubmissionLog(sys.store, e) + [v]);
    }
  }

  /** One process ended, or went on to record what its execution may still get. */
  lemma ProcessKeepsConfined(sys: System, next: System, pid: nat, e: Id, f: Fate)
    requires Confined(sys, e, f) && e in next.store.commitments
    requires forall i :: 0 <= i < |SubmissionLog(next.store, e)| ==> Fits(f, SubmissionLog(next.store, e)[i])
    requires forall q :: q in next.processes && q != pid ==> q in sys.processes && next.processes[q] == sys.processes[q]
    requires HoldsFor(next, pid, e) ==> next.processes[pid].RecordingLast? && Fits(f, next.processes[pid].evidence)
    ensures Confined(next, e, f)
  {
    forall q ensures ConfinedAt(next, e, f, q) { assert ConfinedAt(sys, e, f, q); }
  }

  /**
   Whatever follows a step that decides an execution: no further contact is made for it, a thrown or undelivered
   send is only ever recorded as unknown, bytes that did not read back only as invalid, and an answer only as that
   answer or, when the store refuses it, as unknown. Without authority, or after a crash, nothing is recorded at all.
   */
  lemma FateDecides(env: Environment, steps: seq<Step>, step: Step, more: seq<Step>, e: Id, f: Fate)
    requires Decides(env, Run(env, steps), step, e, f)
    ensures var before, after := Run(env, steps + [step]), Run(env, steps + [step] + more);
            && (forall i :: 0 <= i < |SubmissionLog(after.store, e)| ==> Fits(f, SubmissionLog(after.store, e)[i]))
            && |after.contacts| >= |before.contacts|
            && forall i :: |before.contacts| <= i < |after.contacts| ==> after.contacts[i].executionId != e
  {
    ConfinedFrom(env, steps, step, more, e, f);
  }

  lemma {:induction false} ConfinedFrom(env: Environment, steps: seq<Step>, step: Step, more: seq<Step>, e: Id,
                                        f: Fate)
    requires Decides(env, Run(env, steps), step, e, f)
    ensures var before, after := Run(env, steps + [step]), Run(env, steps + [step] + more);
            && Confined(after, e, f) && |after.contacts| >= |before.contacts|
            && forall i :: |before.contacts| <= i < |after.contacts| ==> after.contacts[i].executionId != e
  {
    var all := steps + [step] + more;
    if more == [] {
      assert all == steps + [step] && (steps + [step])[..|steps|] == steps;
      RunIsSafe(env, steps);
      Decided(env, Run(env, steps), step, e, f);
    } else {
      var less := more[..|more| - 1];
      assert all[..|all| - 1] == steps + [step] + less && all[|all| - 1] == more[|more| - 1];
      ConfinedFrom(env, steps, step, less, e, f);
      RunIsSafe(env, steps + [step] + less);
      StepKeepsConfined(env, Run(env, steps + [step] + less), more[|more| - 1], e, f);
      ContactsGrow(env, Run(env, steps + [step] + less), more[|more| - 1]);
    }
  }

  lemma ContactsGrow(env: Environment, sys: System, step: Step)
    requires Valid(sys.store)
    ensures sys.contacts <= Take(env, sys, step).contacts
  {
    if step.Resume? && step.pid in sys.processes && Take(env, sys, step).contacts != sys.contacts {
      SendingOnly(env, sys, step.pid, step.event);
    }
  }
}
