/**
 Where every stored preparation comes from, and why one was abandoned: over every interleaving and every crash it was
 asked for with a matching command, signed once, and given up only after its blockhash was seen to have expired.
 */
module DevnetPreparations {
  import opened Wrappers
  import opened DevnetLifecycle
  import opened DevnetStore
  import opened DevnetStoreInvariant
  import opened DevnetProtocol
  import opened DevnetSafety

  predicate Fits(i: Identity, c: Command) {
    i.executionId == c.executionId && i.paymentIntentId == c.paymentIntentId && c.supported
  }

  /** The step is told that the blockhash of the prior preparation has expired. */
  predicate Expires(sys: System, step: Step, id: Id) {
    && step.Resume? && step.pid in sys.processes && sys.processes[step.pid].RefreshReading? && step.event.expired
    && sys.processes[step.pid].prior.input.preparationId == id
  }

  /** A prepare call, or a refresh that follows up an expired preparation with the next generation. */
  predicate Requests(sys: System, step: Step, i: Identity) {
    if step.StartPrepare? then step.identity == i && Fits(i, step.command)
    else
      && step.Resume? && step.pid in sys.processes && sys.processes[step.pid].RefreshReading?
      && var p := sys.processes[step.pid];
         && Expires(sys, step, p.prior.input.preparationId) && Fits(i, p.command) && i.preparationId == p.nextId
         && i.executionId == p.prior.input.executionId && i.paymentIntentId == p.prior.input.paymentIntentId
         && i.actorSubject == p.prior.input.actorSubject && i.generation == p.prior.input.generation + 1
  }

  predicate Names(i: Identity, input: PreparationInput) {
    && input.preparationId == i.preparationId && input.executionId == i.executionId
    && input.paymentIntentId == i.paymentIntentId && input.actorSubject == i.actorSubject
    && input.generation == i.generation
  }

  /** The step gives a preparing call its signed artifact, which the input holds under that call's own identity. */
  predicate Signs(env: Environment, sys: System, step: Step, input: PreparationInput) {
    && step.Resume? && step.pid in sys.processes
    && (sys.processes[step.pid].Preparing? || sys.processes[step.pid].RefreshPreparing?)
    && Names(sys.processes[step.pid].identity, input) && step.event.signed.Some?
    && input.artifact == step.event.signed.value.artifact && input.preparedAt == step.event.now
    && input.envelope == env.encrypt(step.event.signed.value.transaction,
                                     Context(input.executionId, input.preparationId, env.keyVersion))
  }

  // ---- one step --------------------------------------------------------------------------------------

  /** Which identities were asked for, which inputs signed, and which preparations seen to have expired. */
  datatype Origin = Origin(
    asked: Identity -> bool, signed: PreparationInput -> bool, expired: Id -> bool)

  ghost predicate ProcessFrom(sys: System, o: Origin, pid: nat) {
    pid in sys.processes ==>
      match sys.processes[pid]
      case Preparing(i) => o.asked(i)
      case Persisting(input) => o.signed(input)
      case RefreshPreparing(prior, i) => o.asked(i) && o.expired(prior)
      case Replacing(prior, input, _) => o.signed(input) && o.expired(prior)
      case _ => true
  }

  ghost predicate StoredFrom(s: Store, o: Origin, k: Id) {
    k in s.preparations ==>
      o.signed(s.preparations[k].input) && (s.preparations[k].state.AbandonedPreContact? ==> o.expired(k))
  }

  ghost predicate Sourced(sys: System, o: Origin) {
    && (forall pid {:trigger ProcessFrom(sys, o, pid)} :: ProcessFrom(sys, o, pid))
    && (forall k {:trigger StoredFrom(sys.store, o, k)} :: StoredFrom(sys.store, o, k))
  }

  ghost predicate Widens(o: Origin, w: Origin) {
    && (forall i :: o.asked(i) ==> w.asked(i)) && (forall v :: o.signed(v) ==> w.signed(v))
    && (forall id :: o.expired(id) ==> w.expired(id))
  }

  lemma SourcedWidens(sys: System, o: Origin, w: Origin)
    requires Sourced(sys, o) && Widens(o, w)
    ensures Sourced(sys, w)
  {
    forall pid ensures ProcessFrom(sys, w, pid) { assert ProcessFrom(sys, o, pid); }
    forall k ensures StoredFrom(sys.store, w, k) { assert StoredFrom(sys.store, o, k); }
  }

  /** Nothing is inserted or abandoned, and only one process moves on. */
  lemma MoveSources(sys: System, next: System, pid: nat, o: Origin)
    requires Sourced(sys, o) && KeepsInputs(sys.store, next.store)
    requires forall q :: q in next.processes && q != pid ==> q in sys.processes && next.processes[q] == sys.processes[q]
    requires ProcessFrom(next, o, pid)
    ensures Sourced(next, o)
  {
    forall q ensures ProcessFrom(next, o, q) { if q != pid { assert ProcessFrom(sys, o, q); } }
    forall k ensures StoredFrom(next.store, o, k) { assert StoredFrom(sys.store, o, k); }
  }

  ghost predicate KeepsInputs(s: Store, t: Store) {
    forall k :: k in t.preparations ==>
      && k in s.preparations && t.preparations[k].input == s.preparations[k].input
      && (t.preparations[k].state.AbandonedPreContact? ==> s.preparations[k].state.AbandonedPreContact?)
  }

  lemma SubmitKeepsInputs(s: Store, v: SubmissionEvidence, actor: Id)
    requires Valid(s)
    ensures KeepsInputs(s, RecordSubmission(s, v, actor).0)
  {
    if RecordSubmission(s, v, actor).0 != s { SubmitEffect(s, v, actor); }
  }

  lemma ReconcileKeepsInputs(s: Store, v: ReconciliationEvidence, fence: Fence)
    requires Valid(s)
    ensures KeepsInputs(s, RecordReconciliation(s, v, fence).0)
  {
    if RecordReconciliation(s, v, fence).0 != s { ReconcileEffect(s, v, fence); }
  }

  lemma CommitKeepsInputs(s: Store, r: CommitRequest)
    requires Valid(s)
    ensures KeepsInputs(s, CommitSubmission(s, r).0)
  {
  }

  lemma SubmittingKeepsInputs(env: Environment, sys: System, pid: nat, e: Event)
    requires Valid(sys.store) && pid in sys.processes && IsSubmitting(sys.processes[pid])
    ensures KeepsInputs(sys.store, Advance(env, sys, pid, e).store)
  {
    var p := sys.processes[pid];
    if p.RecordingOutcome? || p.RecordingLast? {
      SubmitKeepsInputs(sys.store, p.evidence, p.grant.actorSubject);
    } else if p.Committing? {
      CommitKeepsInputs(sys.store, p.commit);
    } else {
      assert Advance(env, sys, pid, e).store == sys.store;
    }
  }

  lemma ReconcilingKeepsInputs(env: Environment, sys: System, pid: nat, e: Event)
    requires Valid(sys.store) && pid in sys.processes && IsReconciling(sys.processes[pid])
    ensures KeepsInputs(sys.store, AdvanceReconciliation(env, sys, pid, e).store)
  {
    var p := sys.processes[pid];
    if p.ReconcileRecording? { ReconcileKeepsInputs(sys.store, p.record, p.fence); }
    else { ReconcilingMovesOn(env, sys, pid, e); }
  }

  lemma PersistSources(sys: System, pid: nat, o: Origin)
    requires Valid(sys.store) && Sourced(sys, o) && pid in sys.processes && sys.processes[pid].Persisting?
    ensures Sourced(End(sys.(store := PersistPreparation(sys.store, sys.processes[pid].input).0), pid), o)
  {
    var next := End(sys.(store := PersistPreparation(sys.store, sys.processes[pid].input).0), pid);
    assert ProcessFrom(sys, o, pid);
    forall q ensures ProcessFrom(next, o, q) { assert ProcessFrom(sys, o, q); }
    forall k ensures StoredFrom(next.store, o, k) { assert StoredFrom(sys.store, o, k); }
  }

  lemma ReplaceSources(sys: System, pid: nat, o: Origin)
    requires Valid(sys.store) && Sourced(sys, o) && pid in sys.processes && sys.processes[pid].Replacing?
    ensures var p := sys.processes[pid];
            Sourced(End(sys.(store := ReplaceExpiredPreparation(sys.store, p.priorId, p.input, p.abandonedAt).0), pid),
                    o)
  {
    var p := sys.processes[pid];
    var next := End(sys.(store := ReplaceExpiredPreparation(sys.store, p.priorId, p.input, p.abandonedAt).0), pid);
    assert ProcessFrom(sys, o, pid) && StoredFrom(sys.store, o, p.priorId);
    forall q ensures ProcessFrom(next, o, q) { assert ProcessFrom(sys, o, q); }
    forall k ensures StoredFrom(next.store, o, k) { assert StoredFrom(sys.store, o, k); }
  }

  /** The next origin takes in what this step adds. */
  ghost predicate TakesIn(env: Environment, sys: System, step: Step, o: Origin, w: Origin) {
    && Widens(o, w) && (forall i :: Requests(sys, step, i) ==> w.asked(i))
    && (forall id :: Expires(sys, step, id) ==> w.expired(id))
    && (forall v, i :: Signs(env, sys, step, v) && Names(i, v) && o.asked(i) ==> w.signed(v))
  }

  lemma PreparingSources(env: Environment, sys: System, pid: nat, e: Event, o: Origin, w: Origin)
    requires Valid(sys.store) && Sourced(sys, o) && pid in sys.processes && IsPreparing(sys.processes[pid])
    requires TakesIn(env, sys, Resume(pid, e), o, w)
    ensures Sourced(AdvancePreparation(env, sys, pid, e), w)
  {
    var p := sys.processes[pid];
    SourcedWidens(sys, o, w);
    if p.Persisting? { PersistSources(sys, pid, w); }
    else if p.Replacing? { ReplaceSources(sys, pid, w); }
    else {
      PreparingMovesOn(env, sys, pid, e);
      PreparedFrom(env, sys, pid, e, o, w);
      MoveSources(sys, AdvancePreparation(env, sys, pid, e), pid, w);
    }
  }

  lemma PreparedFrom(env: Environment, sys: System, pid: nat, e: Event, o: Origin, w: Origin)
    requires Sourced(sys, o) && pid in sys.processes && IsPreparing(sys.processes[pid])
    requires !sys.processes[pid].Persisting? && !sys.processes[pid].Replacing?
    requires TakesIn(env, sys, Resume(pid, e), o, w)
    ensures ProcessFrom(AdvancePreparation(env, sys, pid, e), w, pid)
  {
    var p := sys.processes[pid];
    assert ProcessFrom(sys, o, pid);
    if (p.Preparing? || p.RefreshPreparing?) && e.signed.Some? {
      var input := Persistence(env, p.identity, e.signed.value, e.now);
      assert Signs(env, sys, Resume(pid, e), input) && Names(p.identity, input);
    }
    if p.RefreshReading? && e.expired {
      assert Expires(sys, Resume(pid, e), p.prior.input.preparationId);
    }
  }

  lemma StepSources(env: Environment, sys: System, step: Step, o: Origin, w: Origin)
    requires Valid(sys.store) && Sourced(sys, o) && TakesIn(env, sys, step, o, w)
    ensures Sourced(Take(env, sys, step), w)
  {
    SourcedWidens(sys, o, w);
    if step.Resume? && step.pid in sys.processes {
      var p := sys.processes[step.pid];
      if IsPreparing(p) { PreparingSources(env, sys, step.pid, step.event, o, w); }
      else if IsReconciling(p) { ReconcilingSources(env, sys, step.pid, step.event, w); }
      else { SubmittingSources(env, sys, step.pid, step.event, w); }
    } else {
      assert ProcessFrom(sys, w, step.pid);
      MoveSources(sys, Take(env, sys, step), step.pid, w);
    }
  }

  lemma ReconcilingSources(env: Environment, sys: System, pid: nat, e: Event, o: Origin)
    requires Valid(sys.store) && Sourced(sys, o) && pid in sys.processes && IsReconciling(sys.processes[pid])
    ensures Sourced(AdvanceReconciliation(env, sys, pid, e), o)
  {
    ReconcilingKeepsInputs(env, sys, pid, e);
    if !sys.processes[pid].ReconcileRecording? { ReconcilingMovesOn(env, sys, pid, e); }
    MoveSources(sys, AdvanceReconciliation(env, sys, pid, e), pid, o);
  }

  lemma SubmittingSources(env: Environment, sys: System, pid: nat, e: Event, o: Origin)
    requires Valid(sys.store) && Sourced(sys, o) && pid in sys.processes && IsSubmitting(sys.processes[pid])
    ensures Sourced(Advance(env, sys, pid, e), o)
  {
    SubmittingKeepsInputs(env, sys, pid, e);
    SubmittingMovesItself(env, sys, pid, e);
    MoveSources(sys, Advance(env, sys, pid, e), pid, o);
  }

  // ---- every run -------------------------------------------------------------------------------------

  predicate AskedAt(env: Environment, steps: seq<Step>, n: nat, i: Identity)
    requires n < |steps|
  {
    Requests(Run(env, steps[..n]), steps[n], i)
  }

  ghost predicate Asked(env: Environment, steps: seq<Step>, i: Identity) {
    exists n: nat :: n < |steps| && AskedAt(env, steps, n, i)
  }

  /** Signed at that step, for an identity that had been asked for before. */
  ghost predicate SignedAt(env: Environment, steps: seq<Step>, n: nat, v: PreparationInput)
    requires n < |steps|
  {
    && Signs(env, Run(env, steps[..n]), steps[n], v)
    && Asked(env, steps[..n],
             Identity(v.preparationId, v.executionId, v.paymentIntentId, v.actorSubject, v.generation))
  }

  ghost predicate SignedIn(env: Environment, steps: seq<Step>, v: PreparationInput) {
    exists n: nat :: n < |steps| && SignedAt(env, steps, n, v)
  }

  predicate ExpiredAt(env: Environment, steps: seq<Step>, n: nat, id: Id)
    requires n < |steps|
  {
    Expires(Run(env, steps[..n]), steps[n], id)
  }

  ghost predicate Expired(env: Environment, steps: seq<Step>, id: Id) {
    exists n: nat :: n < |steps| && ExpiredAt(env, steps, n, id)
  }

  ghost function OriginOf(env: Environment, steps: seq<Step>): Origin {
    Origin(i => Asked(env, steps, i), v => SignedIn(env, steps, v), (id: Id) => Expired(env, steps, id))
  }

  lemma OriginWidens(env: Environment, steps: seq<Step>)
    requires steps != []
    ensures Widens(OriginOf(env, steps[..|steps| - 1]), OriginOf(env, steps))
  {
    var front := steps[..|steps| - 1];
    forall n: nat | n < |front| ensures front[..n] == steps[..n] && front[n] == steps[n] {}
    forall i | Asked(env, front, i) ensures Asked(env, steps, i) {
      var n: nat :| n < |front| && AskedAt(env, front, n, i);
      assert AskedAt(env, steps, n, i);
    }
    forall v | SignedIn(env, front, v) ensures SignedIn(env, steps, v) {
      var n: nat :| n < |front| && SignedAt(env, front, n, v);
      assert SignedAt(env, steps, n, v);
    }
    forall id | Expired(env, front, id) ensures Expired(env, steps, id) {
      var n: nat :| n < |front| && ExpiredAt(env, front, n, id);
      assert ExpiredAt(env, steps, n, id);
    }
  }

  lemma LastStepTakesIn(env: Environment, steps: seq<Step>)
    requires steps != []
    ensures var n := |steps| - 1;
            TakesIn(env, Run(env, steps[..n]), steps[n], OriginOf(env, steps[..n]), OriginOf(env, steps))
  {
    var n := |steps| - 1;
    OriginWidens(env, steps);
    forall i | Requests(Run(env, steps[..n]), steps[n], i) ensures Asked(env, steps, i) {
      assert AskedAt(env, steps, n, i);
    }
    forall id | Expires(Run(env, steps[..n]), steps[n], id) ensures Expired(env, steps, id) {
      assert ExpiredAt(env, steps, n, id);
    }
    forall v, i | Signs(env, Run(env, steps[..n]), steps[n], v) && Names(i, v) && Asked(env, steps[..n], i)
      ensures SignedIn(env, steps, v)
    {
      assert SignedAt(env, steps, n, v);
    }
  }

  lemma {:induction false} RunIsSourced(env: Environment, steps: seq<Step>)
    ensures Sourced(Run(env, steps), OriginOf(env, steps))
  {
    if steps != [] {
      var n := |steps| - 1;
      RunIsSourced(env, steps[..n]);
      RunIsSafe(env, steps[..n]);
      LastStepTakesIn(env, steps);
      StepSources(env, Run(env, steps[..n]), steps[n], OriginOf(env, steps[..n]), OriginOf(env, steps));
    }
  }

  /**
   Every stored preparation was signed at some step for an identity asked for before with a matching command, and it
   holds that artifact encrypted under its own ids. One that was abandoned had been reported expired to a refresh.
   */
  lemma PreparationsHaveCauses(env: Environment, steps: seq<Step>, k: Id)
    requires k in Run(env, steps).store.preparations
    ensures var p := Run(env, steps).store.preparations[k];
            && (exists n: nat :: n < |steps| && SignedAt(env, steps, n, p.input))
            && (p.state.AbandonedPreContact? ==> exists n: nat :: n < |steps| && ExpiredAt(env, steps, n, k))
  {
    RunIsSourced(env, steps);
    assert StoredFrom(Run(env, steps).store, OriginOf(env, steps), k);
  }
}
