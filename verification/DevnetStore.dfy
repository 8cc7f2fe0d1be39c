/**
 The Devnet execution-state store as a value, and each repository call as a function on it.
 A JavaScript Map keeps its keys in insertion order; `order` is that order for the preparations.
 */
module DevnetStore {
  import opened Wrappers
  import opened DevnetLifecycle

  datatype Preparation = Preparation(
    input: PreparationInput, state: LifecycleState, abandonedAt: Option<Timestamp>, committedAt: Option<Timestamp>)

  datatype Commitment = Commitment(
    commitmentId: Id, executionId: Id, preparationId: Id, signature: string,
    signedTransactionDigest: string, committedAt: Timestamp)

  datatype Reconciliation = Reconciliation(evidence: ReconciliationEvidence, sequence: nat)

  datatype Store = Store(
    order: seq<Id>, preparations: map<Id, Preparation>, commitments: map<Id, Commitment>,
    reconciliations: map<Id, seq<Reconciliation>>, submissions: map<Id, seq<SubmissionEvidence>>)

  const EMPTY := Store([], map[], map[], map[], map[])

  datatype CommitRequest = CommitRequest(
    executionId: Id, actorSubject: Id, preparationId: Id, commitmentId: Id, committedAt: Timestamp)

  datatype CommitReply = CommitReply(preparation: Preparation, commitment: Commitment, submissionAuthorized: bool)

  datatype ReconciliationReply = ReconciliationReply(preparation: Preparation, observation: Reconciliation)

  datatype SubmissionReply = SubmissionReply(preparation: Preparation, observation: SubmissionEvidence)

  predicate IsTerminal(s: LifecycleState) { s.Settled? || s.Failed? }

  predicate IsPastContact(s: LifecycleState) { !s.PreparedNotContacted? && !s.AbandonedPreContact? }

  function Fresh(input: PreparationInput): Preparation { Preparation(input, PreparedNotContacted, None, None) }

  function ReconciliationLog(s: Store, executionId: Id): seq<Reconciliation> {
    if executionId in s.reconciliations then s.reconciliations[executionId] else []
  }

  function SubmissionLog(s: Store, executionId: Id): seq<SubmissionEvidence> {
    if executionId in s.submissions then s.submissions[executionId] else []
  }

  /** Every key in the insertion order is stored under its own id. */
  ghost predicate Indexed(s: Store) {
    && (forall i :: 0 <= i < |s.order| ==> s.order[i] in s.preparations)
    && (forall k :: k in s.preparations ==> k in s.order && s.preparations[k].input.preparationId == k)
    && (forall i, j :: 0 <= i < j < |s.order| ==> s.order[i] != s.order[j])
  }

  /** The first stored conflict in insertion order decides which error is thrown. */
  function UniquenessRefusal(p: Preparation, input: PreparationInput): Option<Refusal> {
    if p.input.preparationId == input.preparationId then Some(PreparationIdExists)
    else if p.input.artifact.signature == input.artifact.signature then Some(SignatureExists)
    else if p.input.artifact.signedTransactionDigest == input.artifact.signedTransactionDigest then Some(DigestExists)
    else None
  }

  function FirstConflict(order: seq<Id>, preparations: map<Id, Preparation>, input: PreparationInput)
    : Option<Refusal>
  {
    if order == [] then None
    else
      var r := if order[0] in preparations then UniquenessRefusal(preparations[order[0]], input) else None;
      if r.Some? then r else FirstConflict(order[1..], preparations, input)
  }

  predicate IsLive(p: Preparation, executionId: Id) {
    p.input.executionId == executionId && !p.state.AbandonedPreContact?
  }

  /** The first preparation of the execution that is not abandoned, in insertion order. */
  function FirstLive(order: seq<Id>, preparations: map<Id, Preparation>, executionId: Id)
    : Option<Preparation>
  {
    if order == [] then None
    else if order[0] in preparations && IsLive(preparations[order[0]], executionId) then Some(preparations[order[0]])
    else FirstLive(order[1..], preparations, executionId)
  }

  function Active(s: Store, executionId: Id): Option<Preparation>
  {
    FirstLive(s.order, s.preparations, executionId)
  }

  function Insert(s: Store, p: Preparation): Store {
    s.(order := s.order + [p.input.preparationId], preparations := s.preparations[p.input.preparationId := p])
  }

  function Update(s: Store, p: Preparation): Store {
    s.(preparations := s.preparations[p.input.preparationId := p])
  }

  // ---- repository calls ------------------------------------------------------------------------

  function PersistPreparation(s: Store, input: PreparationInput): (Store, Result<Preparation, Refusal>)
  {
    if ArtifactRefusal(input).Some? then (s, Err(ArtifactRefusal(input).value))
    else if FirstConflict(s.order, s.preparations, input).Some? then
      (s, Err(FirstConflict(s.order, s.preparations, input).value))
    else if Active(s, input.executionId).Some? then (s, Err(AlreadyActive))
    else (Insert(s, Fresh(input)), Ok(Fresh(input)))
  }

  function Abandoned(p: Preparation, at: Timestamp): Preparation {
    p.(state := AbandonedPreContact, abandonedAt := Some(at))
  }

  function ReplaceExpiredPreparation(s: Store, priorId: Id, input: PreparationInput, abandonedAt: Timestamp)
    : (Store, Result<Preparation, Refusal>)
  {
    if ArtifactRefusal(input).Some? then (s, Err(ArtifactRefusal(input).value))
    else if priorId !in s.preparations then (s, Err(PriorNotFound))
    else
      var prior := s.preparations[priorId];
      if prior.input.executionId != input.executionId || prior.input.actorSubject != input.actorSubject then
        (s, Err(PriorNotFound))
      else if !prior.state.PreparedNotContacted? || prior.input.executionId in s.commitments then
        (s, Err(CommittedIsReconciliationOnly))
      else if input.generation != prior.input.generation + 1 then (s, Err(GenerationMustIncrement))
      else if FirstConflict(s.order, s.preparations, input).Some? then
        (s, Err(FirstConflict(s.order, s.preparations, input).value))
      else
        (Insert(Update(s, Abandoned(prior, abandonedAt)), Fresh(input)), Ok(Fresh(input)))
  }

  function CommitmentFor(r: CommitRequest, p: Preparation): Commitment {
    Commitment(r.commitmentId, r.executionId, r.preparationId, p.input.artifact.signature,
               p.input.artifact.signedTransactionDigest, r.committedAt)
  }

  function CommitSubmission(s: Store, r: CommitRequest): (Store, Result<CommitReply, Refusal>)
  {
    if r.executionId in s.commitments then
      var existing := s.commitments[r.executionId];
      if existing.preparationId != r.preparationId || existing.commitmentId != r.commitmentId then
        (s, Err(CommitmentConflict))
      else if existing.preparationId !in s.preparations then (s, Err(PreparationNotFound))
      else (s, Ok(CommitReply(s.preparations[existing.preparationId], existing, false)))
    else if r.preparationId !in s.preparations then (s, Err(PreparationNotFound))
    else
      var p := s.preparations[r.preparationId];
      if p.input.executionId != r.executionId || p.input.actorSubject != r.actorSubject then
        (s, Err(PreparationNotFound))
      else if !p.state.PreparedNotContacted? then (s, Err(NotNeverContacted))
      else
        var committed := p.(state := SubmissionCommitted, committedAt := Some(r.committedAt));
        var commitment := CommitmentFor(r, p);
        (Update(s, committed).(commitments := s.commitments[r.executionId := commitment]),
         Ok(CommitReply(committed, commitment, true)))
  }

  predicate SameReconciliation(prior: ReconciliationEvidence, next: ReconciliationEvidence) {
    && prior.providerId == next.providerId && prior.signature == next.signature && prior.outcome == next.outcome
    && prior.slot == next.slot && prior.confirmationStatus == next.confirmationStatus
    && prior.errorCode == next.errorCode
  }

  predicate HasReconciliationId(log: seq<Reconciliation>, id: Id) {
    exists i :: 0 <= i < |log| && log[i].evidence.observationId == id
  }

  predicate HasSubmissionId(log: seq<SubmissionEvidence>, id: Id) {
    exists i :: 0 <= i < |log| && log[i].observationId == id
  }

  function RecordReconciliation(s: Store, v: ReconciliationEvidence, fence: Fence)
    : (Store, Result<ReconciliationReply, Refusal>)
  {
    if ReconciliationRefusal(v, fence).Some? then (s, Err(ReconciliationRefusal(v, fence).value))
    else if v.preparationId !in s.preparations then (s, Err(PreparationNotFound))
    else
      var p := s.preparations[v.preparationId];
      if p.input.executionId != v.executionId || p.input.actorSubject != v.actorSubject then
        (s, Err(PreparationNotFound))
      else if v.providerId != p.input.artifact.reconciliationProviderId then (s, Err(ProviderMismatch))
      else if v.executionId !in s.commitments || v.signature != p.input.artifact.signature
              || v.signature != s.commitments[v.executionId].signature then
        (s, Err(SignatureMismatch))
      else
        var log := ReconciliationLog(s, v.executionId);
        if log != [] && (IsTerminal(p.state) || SameReconciliation(log[|log| - 1].evidence, v)) then
          (s, Ok(ReconciliationReply(p, log[|log| - 1])))
        else
          var next := ReconciliationLifecycle(p.state, v.outcome);
          if next.Err? then (s, Err(next.error))
          else if HasReconciliationId(log, v.observationId) then (s, Err(ObservationIdExists))
          else
            var observation := Reconciliation(v, |log| + 1);
            var updated := p.(state := next.value);
            (Update(s, updated).(reconciliations := s.reconciliations[v.executionId := log + [observation]]),
             Ok(ReconciliationReply(updated, observation)))
  }

  function RecordSubmission(s: Store, v: SubmissionEvidence, actorSubject: Id)
    : (Store, Result<SubmissionReply, Refusal>)
  {
    if SubmissionRefusal(v).Some? then (s, Err(SubmissionRefusal(v).value))
    else if v.preparationId !in s.preparations then (s, Err(CommittedPreparationNotFound))
    else
      var p := s.preparations[v.preparationId];
      if p.input.executionId != v.executionId || p.input.actorSubject != actorSubject
         || v.executionId !in s.commitments || s.commitments[v.executionId].commitmentId != v.commitmentId then
        (s, Err(CommittedPreparationNotFound))
      else if v.providerId != p.input.artifact.submissionProviderId
              || v.signature != s.commitments[v.executionId].signature then
        (s, Err(ProviderMismatch))
      else
        var next := SubmissionLifecycle(p.state, v.outcome);
        var log := SubmissionLog(s, v.executionId);
        if next.Err? then (s, Err(next.error))
        else if HasSubmissionId(log, v.observationId) then (s, Err(ObservationIdExists))
        else
          var updated := p.(state := next.value);
          (Update(s, updated).(submissions := s.submissions[v.executionId := log + [v]]),
           Ok(SubmissionReply(updated, v)))
  }

  function FindPreparation(s: Store, executionId: Id, actorSubject: Id): Option<Preparation>
  {
    match Active(s, executionId)
    case Some(p) => if p.input.actorSubject == actorSubject then Some(p) else None
    case None => None
  }

  function FindCommitment(s: Store, executionId: Id, actorSubject: Id): Option<Commitment>
  {
    if FindPreparation(s, executionId, actorSubject).Some? && executionId in s.commitments
    then Some(s.commitments[executionId]) else None
  }

  function ListReconciliations(s: Store, executionId: Id, actorSubject: Id): seq<Reconciliation>
  {
    if FindPreparation(s, executionId, actorSubject).Some? then ReconciliationLog(s, executionId) else []
  }

  function ListSubmissions(s: Store, executionId: Id, actorSubject: Id): seq<SubmissionEvidence>
  {
    if FindPreparation(s, executionId, actorSubject).Some? then SubmissionLog(s, executionId) else []
  }

  datatype Call =
    | Persist(input: PreparationInput)
    | ReplaceExpired(priorId: Id, replacement: PreparationInput, abandonedAt: Timestamp)
    | Commit(request: CommitRequest)
    | Reconcile(evidence: ReconciliationEvidence, fence: Fence)
    | Submit(submission: SubmissionEvidence, actorSubject: Id)

  function Apply(s: Store, c: Call): Store
  {
    match c
    case Persist(input) => PersistPreparation(s, input).0
    case ReplaceExpired(id, input, at) => ReplaceExpiredPreparation(s, id, input, at).0
    case Commit(r) => CommitSubmission(s, r).0
    case Reconcile(v, fence) => RecordReconciliation(s, v, fence).0
    case Submit(v, actor) => RecordSubmission(s, v, actor).0
  }

  predicate Refused(s: Store, c: Call)
  {
    match c
    case Persist(input) => PersistPreparation(s, input).1.Err?
    case ReplaceExpired(id, input, at) => ReplaceExpiredPreparation(s, id, input, at).1.Err?
    case Commit(r) => CommitSubmission(s, r).1.Err?
    case Reconcile(v, fence) => RecordReconciliation(s, v, fence).1.Err?
    case Submit(v, actor) => RecordSubmission(s, v, actor).1.Err?
  }

  // ---- the invariant -----------------------------------------------------------------------------

  ghost predicate Distinct(ps: map<Id, Preparation>, j: Id, k: Id) {
    j in ps && k in ps && j != k ==>
      && ps[j].input.artifact.signature != ps[k].input.artifact.signature
      && ps[j].input.artifact.signedTransactionDigest != ps[k].input.artifact.signedTransactionDigest
  }

  ghost predicate Checked(p: Preparation) { ArtifactRefusal(p.input).None? }

  /** Ids, signatures and digests are globally unique; every stored artifact passed its checks. */
  ghost predicate Unique(ps: map<Id, Preparation>) {
    && (forall k {:trigger Checked(ps[k])} :: k in ps ==> Checked(ps[k]))
    && (forall j, k {:trigger Distinct(ps, j, k)} :: Distinct(ps, j, k))
  }

  ghost predicate SameExecution(ps: map<Id, Preparation>, j: Id, k: Id) {
    j in ps && k in ps && ps[j].input.executionId == ps[k].input.executionId
  }

  /** Two preparations of one execution: one owner, one per generation, one of them live. */
  ghost predicate Siblings(p: Preparation, q: Preparation) {
    && p.input.actorSubject == q.input.actorSubject
    && (p.input.generation == q.input.generation ==> p.input.preparationId == q.input.preparationId)
    && (!p.state.AbandonedPreContact? && !q.state.AbandonedPreContact? ==>
          p.input.preparationId == q.input.preparationId)
  }

  ghost predicate Supersedes(ps: map<Id, Preparation>, k: Id, j: Id) {
    SameExecution(ps, j, k) && ps[k].input.generation == ps[j].input.generation + 1
  }

  ghost predicate Heads(ps: map<Id, Preparation>, k: Id, j: Id) {
    SameExecution(ps, j, k) && !ps[k].state.AbandonedPreContact?
    && ps[j].input.generation <= ps[k].input.generation
  }

  ghost predicate HasNext(ps: map<Id, Preparation>, j: Id) { exists k :: Supersedes(ps, k, j) }

  ghost predicate HasHead(ps: map<Id, Preparation>, j: Id) { exists k :: Heads(ps, k, j) }

  /**
   The preparations of an execution are one chain: one owner, one per generation, every abandoned one
   followed by the next generation, and exactly one not abandoned, which is the highest.
   */
  ghost predicate Chained(ps: map<Id, Preparation>) {
    && (forall j, k :: SameExecution(ps, j, k) ==> Siblings(ps[j], ps[k]))
    && (forall j {:trigger HasNext(ps, j)} :: j in ps && ps[j].state.AbandonedPreContact? ==> HasNext(ps, j))
    && (forall j {:trigger HasHead(ps, j)} :: j in ps ==> HasHead(ps, j))
  }

  ghost predicate Matches(ps: map<Id, Preparation>, cs: map<Id, Commitment>, e: Id) {
    && e in cs && cs[e].executionId == e && cs[e].preparationId in ps
    && var p := ps[cs[e].preparationId];
       p.input.executionId == e && IsPastContact(p.state)
       && p.input.artifact.signature == cs[e].signature
       && p.input.artifact.signedTransactionDigest == cs[e].signedTransactionDigest
  }

  ghost predicate CommittedBy(ps: map<Id, Preparation>, cs: map<Id, Commitment>, k: Id) {
    k in ps && IsPastContact(ps[k].state) ==>
      ps[k].input.executionId in cs && cs[ps[k].input.executionId].preparationId == k
  }

  /** A commitment exists exactly when the live preparation is past contact, and matches it. */
  ghost predicate Committed(ps: map<Id, Preparation>, cs: map<Id, Commitment>) {
    && (forall e {:trigger Matches(ps, cs, e)} :: e in cs ==> Matches(ps, cs, e))
    && (forall k {:trigger CommittedBy(ps, cs, k)} :: CommittedBy(ps, cs, k))
  }

  ghost predicate NumberedLog(log: seq<Reconciliation>) {
    && (forall i :: 0 <= i < |log| ==> log[i].sequence == i + 1)
    && (forall i, j :: 0 <= i < j < |log| ==> log[i].evidence.observationId != log[j].evidence.observationId)
    && (forall i :: 0 < i < |log| ==> !SameReconciliation(log[i - 1].evidence, log[i].evidence))
  }

  ghost predicate DistinctIds(log: seq<SubmissionEvidence>) {
    forall i, j :: 0 <= i < j < |log| ==> log[i].observationId != log[j].observationId
  }

  predicate SettlesR(o: Reconciliation) { o.evidence.outcome.ObservedSettled? }
  predicate FailsR(o: Reconciliation) { o.evidence.outcome.ObservedFailed? }
  predicate SettlesS(o: SubmissionEvidence) { o.outcome.SubmissionSettled? }
  predicate FailsS(o: SubmissionEvidence) { o.outcome.SubmissionRejected? }
  predicate EndsR(o: Reconciliation) { SettlesR(o) || FailsR(o) }
  predicate EndsS(o: SubmissionEvidence) { SettlesS(o) || FailsS(o) }

  predicate LastR(log: seq<Reconciliation>, p: Reconciliation -> bool) { log != [] && p(log[|log| - 1]) }
  predicate LastS(log: seq<SubmissionEvidence>, p: SubmissionEvidence -> bool) { log != [] && p(log[|log| - 1]) }

  /** The state agrees with the two logs; a terminal entry is the last of its log and the only one. */
  ghost predicate Agrees(state: LifecycleState, r: seq<Reconciliation>, s: seq<SubmissionEvidence>) {
    && (forall i :: 0 <= i < |r| - 1 ==> !EndsR(r[i]))
    && (forall i :: 0 <= i < |s| - 1 ==> !EndsS(s[i]))
    && !(LastR(r, EndsR) && LastS(s, EndsS))
    && (state.Settled? <==> LastR(r, SettlesR) || LastS(s, SettlesS))
    && (state.Failed? <==> LastR(r, FailsR) || LastS(s, FailsS))
    && (state.SubmissionCommitted? <==> r == [] && s == [])
  }

  /** Every entry names the commitment's preparation, signature and the configured provider. */
  ghost predicate BoundR(p: Preparation, c: Commitment, log: seq<Reconciliation>) {
    forall i :: 0 <= i < |log| ==>
      var v := log[i].evidence;
      v.executionId == c.executionId && v.preparationId == c.preparationId && v.signature == c.signature
      && v.providerId == p.input.artifact.reconciliationProviderId
  }

  ghost predicate BoundS(p: Preparation, c: Commitment, log: seq<SubmissionEvidence>) {
    forall i :: 0 <= i < |log| ==>
      var v := log[i];
      v.executionId == c.executionId && v.preparationId == c.preparationId && v.signature == c.signature
      && v.commitmentId == c.commitmentId && v.providerId == p.input.artifact.submissionProviderId
  }

  ghost predicate Logged(p: Preparation, c: Commitment, r: seq<Reconciliation>, s: seq<SubmissionEvidence>) {
    NumberedLog(r) && DistinctIds(s) && BoundR(p, c, r) && BoundS(p, c, s) && Agrees(p.state, r, s)
  }

  ghost predicate LoggedAt(s: Store, e: Id) {
    && e in s.commitments && s.commitments[e].preparationId in s.preparations
    && Logged(s.preparations[s.commitments[e].preparationId], s.commitments[e],
              ReconciliationLog(s, e), SubmissionLog(s, e))
  }

  ghost predicate LoggedAll(s: Store) {
    && (forall e :: e in s.reconciliations ==> e in s.commitments)
    && (forall e :: e in s.submissions ==> e in s.commitments)
    && (forall e {:trigger LoggedAt(s, e)} :: e in s.commitments ==> LoggedAt(s, e))
  }

  ghost predicate Valid(s: Store) {
    Indexed(s) && Unique(s.preparations) && Chained(s.preparations)
    && Committed(s.preparations, s.commitments) && LoggedAll(s)
  }
}
