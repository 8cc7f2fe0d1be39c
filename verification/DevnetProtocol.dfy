/**
 The concurrent clients of the Devnet repository: prepare, refresh, submit and reconcile. Every call is a
 process that stops at each await; processes interleave freely and may crash at any await.
 */
module DevnetProtocol {
  import opened Wrappers
  import opened DevnetLifecycle
  import opened DevnetStore
  import opened DevnetObservation

  datatype Context = Context(executionId: Id, preparationId: Id, keyVersion: string)

  /** The cipher, the byte digest and the configuration the service is composed with. */
  datatype Environment = Environment(
    keyVersion: string, encrypt: (string, Context) -> Envelope, decrypt: (Envelope, Context) -> Option<string>,
    digest: string -> string, submissionProviderId: string, reconciliationProviderId: string,
    submissionEnabled: bool, reconciliationEnabled: bool)

  datatype Identity = Identity(
    preparationId: Id, executionId: Id, paymentIntentId: Id, actorSubject: Id, generation: int)

  /** `supported`: rail, destination, asset and decimals are those of the policy. */
  datatype Command = Command(executionId: Id, paymentIntentId: Id, supported: bool)

  /** What the transaction preparer returns. */
  datatype Signed = Signed(artifact: Artifact, transaction: string)

  datatype SubmitRequest = SubmitRequest(executionId: Id, actorSubject: Id, commitmentId: Id)

  datatype TransportAnswer =
    | TransportThrew
    | TransportAccepted(submittedAt: Timestamp)
    | TransportSettled(settledAt: Timestamp, slot: string, confirmationStatus: string)

  /** The one-shot authority a commitment call hands to its caller. */
  datatype Grant = Grant(commitment: Commitment, preparationId: Id, actorSubject: Id)

  datatype Process =
    | Preparing(identity: Identity)
    | Persisting(input: PreparationInput)
    | RefreshFinding(executionId: Id, actorSubject: Id, nextId: Id, command: Command)
    | RefreshReading(prior: Preparation, nextId: Id, command: Command)
    | RefreshPreparing(priorId: Id, identity: Identity)
    | Replacing(priorId: Id, input: PreparationInput, abandonedAt: Timestamp)
    | SubmitFinding(request: SubmitRequest)
    | Committing(commit: CommitRequest)
    | Sending(grant: Grant, transaction: string)
    | Awaiting(grant: Grant)
    | RecordingOutcome(grant: Grant, evidence: SubmissionEvidence)
    | RecordingLast(grant: Grant, evidence: SubmissionEvidence)
    | ReconcileFinding(executionId: Id, actorSubject: Id)
    | ReconcileCommitment(preparation: Preparation)
    | ReconcileTerminal(preparation: Preparation)
    | ReconcilePolling(subject: Subject)
    | ReconcileListing(record: ReconciliationEvidence, fence: Fence)
    | ReconcileRecording(record: ReconciliationEvidence, fence: Fence)

  /** One call of the submission provider. */
  datatype Contact = Contact(executionId: Id, transaction: string)

  datatype System = System(store: Store, processes: map<nat, Process>, contacts: seq<Contact>)

  const INITIAL := System(EMPTY, map[], [])

  /** What an awaited operation returned; each program point reads the part it waited for. */
  datatype Event = Event(
    signed: Option<Signed>, expired: bool, now: Timestamp, observationId: Id, authorized: bool, reached: bool,
    answer: TransportAnswer, polled: ProviderAnswer, leaseHeld: bool, fence: Fence)

  datatype Step =
    | StartPrepare(pid: nat, identity: Identity, command: Command)
    | StartRefresh(pid: nat, executionId: Id, actorSubject: Id, nextId: Id, command: Command)
    | StartSubmit(pid: nat, request: SubmitRequest)
    | StartReconcile(pid: nat, executionId: Id, actorSubject: Id)
    | Crash(pid: nat)
    | Resume(pid: nat, event: Event)

  predicate IdentityMatches(i: Identity, c: Command) {
    i.executionId == c.executionId && i.paymentIntentId == c.paymentIntentId && c.supported
  }

  function Persistence(env: Environment, i: Identity, s: Signed, now: Timestamp): PreparationInput {
    PreparationInput(i.preparationId, i.executionId, i.paymentIntentId, i.actorSubject, i.generation,
                     env.encrypt(s.transaction, Context(i.executionId, i.preparationId, env.keyVersion)),
                     s.artifact, now)
  }

  /** The authenticated bytes of a stored preparation, unless decryption fails or their digest differs. */
  function Reconstruct(env: Environment, input: PreparationInput): Option<string> {
    match env.decrypt(input.envelope, Context(input.executionId, input.preparationId, input.envelope.keyVersion))
    case Some(t) => if env.digest(t) == input.artifact.signedTransactionDigest then Some(t) else None
    case None => None
  }

  function Evidence(env: Environment, g: Grant, id: Id, outcome: SubmissionOutcome, certainty: ContactCertainty,
                    at: Timestamp, code: Option<string>): SubmissionEvidence
  {
    SubmissionEvidence(id, g.commitment.executionId, g.preparationId, g.commitment.commitmentId,
                       env.submissionProviderId, g.commitment.signature, outcome, certainty, at, code, None, None)
  }

  function InvalidEvidence(env: Environment, g: Grant, e: Event): SubmissionEvidence {
    Evidence(env, g, e.observationId, ValidationFailed, NotStarted, e.now, Some("PERSISTED_ARTIFACT_INVALID"))
  }

  function UnknownEvidence(env: Environment, g: Grant, e: Event): SubmissionEvidence {
    Evidence(env, g, e.observationId, SubmissionUnknown, MayHaveOccurred, e.now,
             Some("SUBMISSION_RESPONSE_UNAVAILABLE"))
  }

  function AnswerEvidence(env: Environment, g: Grant, e: Event): SubmissionEvidence
    requires !e.answer.TransportThrew?
  {
    match e.answer
    case TransportSettled(at, slot, status) =>
      Evidence(env, g, e.observationId, SubmissionSettled, ContactAccepted, at, None)
        .(slot := Some(slot), confirmationStatus := Some(status))
    case TransportAccepted(at) => Evidence(env, g, e.observationId, SubmissionAccepted, ContactAccepted, at, None)
  }

  function Spawn(sys: System, pid: nat, p: Process): System {
    if pid in sys.processes then sys else sys.(processes := sys.processes[pid := p])
  }

  function Move(sys: System, pid: nat, p: Process): System { sys.(processes := sys.processes[pid := p]) }

  function End(sys: System, pid: nat): System { sys.(processes := sys.processes - {pid}) }

  function Take(env: Environment, sys: System, step: Step): System
  {
    match step
    case StartPrepare(pid, i, c) => if IdentityMatches(i, c) then Spawn(sys, pid, Preparing(i)) else sys
    case StartRefresh(pid, e, a, next, c) => Spawn(sys, pid, RefreshFinding(e, a, next, c))
    case StartSubmit(pid, r) => Spawn(sys, pid, SubmitFinding(r))
    case StartReconcile(pid, e, a) =>
      if env.reconciliationEnabled then Spawn(sys, pid, ReconcileFinding(e, a)) else sys
    case Crash(pid) => End(sys, pid)
    case Resume(pid, event) => if pid in sys.processes then Advance(env, sys, pid, event) else sys
  }

  function Advance(env: Environment, sys: System, pid: nat, e: Event): System
    requires pid in sys.processes
  {
    match sys.processes[pid]
    case Preparing(_) | Persisting(_) | RefreshFinding(_, _, _, _) | RefreshReading(_, _, _)
       | RefreshPreparing(_, _) | Replacing(_, _, _) => AdvancePreparation(env, sys, pid, e)
    case ReconcileFinding(_, _) | ReconcileCommitment(_) | ReconcileTerminal(_) | ReconcilePolling(_)
       | ReconcileListing(_, _) | ReconcileRecording(_, _) => AdvanceReconciliation(env, sys, pid, e)
    case SubmitFinding(r) =>
      var p := FindPreparation(sys.store, r.executionId, r.actorSubject);
      if p.None? || !env.submissionEnabled || !p.value.state.PreparedNotContacted? then End(sys, pid)
      else Move(sys, pid, Committing(CommitRequest(r.executionId, r.actorSubject, p.value.input.preparationId,
                                                   r.commitmentId, e.now)))
    case Committing(r) => AdvanceCommit(env, sys, pid, r, e)
    case Sending(g, transaction) =>
      if e.reached then
        Move(sys, pid, Awaiting(g)).(contacts := sys.contacts + [Contact(g.commitment.executionId, transaction)])
      else Move(sys, pid, RecordingLast(g, UnknownEvidence(env, g, e)))
    case Awaiting(g) =>
      Move(sys, pid, if e.answer.TransportThrew? then RecordingLast(g, UnknownEvidence(env, g, e))
                     else RecordingOutcome(g, AnswerEvidence(env, g, e)))
    case RecordingOutcome(g, v) =>
      var (store, reply) := RecordSubmission(sys.store, v, g.actorSubject);
      if reply.Ok? then End(sys.(store := store), pid)
      else Move(sys.(store := store), pid, RecordingLast(g, UnknownEvidence(env, g, e)))
    case RecordingLast(g, v) =>
      End(sys.(store := RecordSubmission(sys.store, v, g.actorSubject).0), pid)
  }

  /** After the commitment: stop without authority, record bytes that do not verify, or send them. */
  function AdvanceCommit(env: Environment, sys: System, pid: nat, r: CommitRequest, e: Event): System
    requires pid in sys.processes
  {
    var (store, reply) := CommitSubmission(sys.store, r);
    var after := sys.(store := store);
    if reply.Err? || !reply.value.submissionAuthorized then End(after, pid)
    else
      var g := Grant(reply.value.commitment, r.preparationId, r.actorSubject);
      match Reconstruct(env, reply.value.preparation.input)
      case None => Move(after, pid, RecordingLast(g, InvalidEvidence(env, g, e)))
      case Some(transaction) => if e.authorized then Move(after, pid, Sending(g, transaction)) else End(after, pid)
  }

  function AdvancePreparation(env: Environment, sys: System, pid: nat, e: Event): System
    requires pid in sys.processes
  {
    match sys.processes[pid]
    case Preparing(i) =>
      if e.signed.None? then End(sys, pid)
      else Move(sys, pid, Persisting(Persistence(env, i, e.signed.value, e.now)))
    case Persisting(input) =>
      End(sys.(store := DevnetStore.PersistPreparation(sys.store, input).0), pid)
    case RefreshFinding(x, a, next, c) =>
      var p := FindPreparation(sys.store, x, a);
      if p.None? || !p.value.state.PreparedNotContacted? then End(sys, pid)
      else Move(sys, pid, RefreshReading(p.value, next, c))
    case RefreshReading(prior, next, c) =>
      var i := Identity(next, prior.input.executionId, prior.input.paymentIntentId, prior.input.actorSubject,
                        prior.input.generation + 1);
      if !e.expired || !IdentityMatches(i, c) then End(sys, pid)
      else Move(sys, pid, RefreshPreparing(prior.input.preparationId, i))
    case RefreshPreparing(priorId, i) =>
      if e.signed.None? then End(sys, pid)
      else Move(sys, pid, Replacing(priorId, Persistence(env, i, e.signed.value, e.now), e.now))
    case Replacing(priorId, input, at) =>
      End(sys.(store := DevnetStore.ReplaceExpiredPreparation(sys.store, priorId, input, at).0), pid)
    case _ => sys
  }

  function AdvanceReconciliation(env: Environment, sys: System, pid: nat, e: Event): System
    requires pid in sys.processes
  {
    match sys.processes[pid]
    case ReconcileFinding(x, a) =>
      var p := FindPreparation(sys.store, x, a);
      if p.None? then End(sys, pid) else Move(sys, pid, ReconcileCommitment(p.value))
    case ReconcileCommitment(p) =>
      var c := FindCommitment(sys.store, p.input.executionId, p.input.actorSubject);
      if c.None? || c.value.preparationId != p.input.preparationId
         || p.input.artifact.reconciliationProviderId != env.reconciliationProviderId
         || p.input.artifact.submissionProviderId == env.reconciliationProviderId then
        End(sys, pid)
      else if IsTerminal(p.state) then Move(sys, pid, ReconcileTerminal(p))
      else
        Move(sys, pid, ReconcilePolling(Subject(p.input.executionId, p.input.actorSubject, p.input.preparationId,
                                                c.value.signature, env.reconciliationProviderId)))
    case ReconcileTerminal(_) => End(sys, pid)
    case ReconcilePolling(subject) =>
      if !e.leaseHeld then End(sys, pid)
      else Move(sys, pid, ReconcileListing(EvidenceFor(e.polled, subject, e.observationId, e.now), e.fence))
    case ReconcileListing(v, fence) =>
      var list := ListReconciliations(sys.store, v.executionId, v.actorSubject);
      if !e.leaseHeld || (list != [] && SameReconciliation(list[|list| - 1].evidence, v)) then End(sys, pid)
      else Move(sys, pid, ReconcileRecording(v, fence))
    case ReconcileRecording(v, fence) =>
      End(sys.(store := RecordReconciliation(sys.store, v, fence).0), pid)
    case _ => sys
  }

  // ---- what one step of each kind of process touches -----------------------------------------------------

  predicate IsSubmitting(p: Process) { !IsPreparing(p) && !IsReconciling(p) }

  predicate IsPreparing(p: Process) {
    p.Preparing? || p.Persisting? || p.RefreshFinding? || p.RefreshReading? || p.RefreshPreparing? || p.Replacing?
  }

  predicate IsReconciling(p: Process) {
    p.ReconcileFinding? || p.ReconcileCommitment? || p.ReconcileTerminal? || p.ReconcilePolling?
    || p.ReconcileListing? || p.ReconcileRecording?
  }

  /** The process ended or went on to another point, and nothing else changed. */
  predicate MovesOn(sys: System, next: System, pid: nat) {
    next == End(sys, pid) || (pid in next.processes && next == Move(sys, pid, next.processes[pid]))
  }

  lemma ReconcilingMovesOn(env: Environment, sys: System, pid: nat, e: Event)
    requires pid in sys.processes && IsReconciling(sys.processes[pid]) && !sys.processes[pid].ReconcileRecording?
    ensures var next := AdvanceReconciliation(env, sys, pid, e);
            MovesOn(sys, next, pid) && (pid in next.processes ==> IsReconciling(next.processes[pid]))
  {
  }

  lemma PreparingMovesOn(env: Environment, sys: System, pid: nat, e: Event)
    requires pid in sys.processes && IsPreparing(sys.processes[pid])
    requires !sys.processes[pid].Persisting? && !sys.processes[pid].Replacing?
    ensures var next := AdvancePreparation(env, sys, pid, e);
            MovesOn(sys, next, pid) && (pid in next.processes ==> IsPreparing(next.processes[pid]))
  {
  }

  lemma SubmittingMovesItself(env: Environment, sys: System, pid: nat, e: Event)
    requires pid in sys.processes && IsSubmitting(sys.processes[pid])
    ensures var next := Advance(env, sys, pid, e);
            && (forall q :: q in next.processes && q != pid ==>
                  q in sys.processes && next.processes[q] == sys.processes[q])
            && (pid in next.processes ==> IsSubmitting(next.processes[pid]))
  {
  }
}
