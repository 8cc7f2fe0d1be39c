/**
 When each repository call answers what, for every input and in every valid store, in terms of the stored records.
 */
module DevnetAnswers {
  import opened Wrappers
  import opened Decimals
  import opened DevnetLifecycle
  import opened DevnetStore
  import opened DevnetStoreInvariant
  import opened DevnetStoreRuns

  // ---- preparations --------------------------------------------------------------------------------------

  predicate ProviderName(s: string) { s != "" && IsTrimmed(s) }

  ghost predicate Numeral(s: string, least: nat) { exists n: nat :: n >= least && s == ToDecimal(n) }

  lemma NumeralIsCanonical(s: string)
    ensures Numeral(s, 0) <==> Canonical(s)
    ensures Numeral(s, 1) <==> Canonical(s) && s[0] != '0'
  {
    forall n: nat | s == ToDecimal(n) ensures Canonical(s) && (n > 0 ==> s[0] != '0') { ValueOfDecimal(n); }
    if Canonical(s) {
      DecimalOfValue(s);
      if s[0] != '0' { ValueIsPositive(s); }
    }
    assert ToDecimal(0) == "0";
  }

  /** What the documentation asks of an artifact before it may be stored. */
  ghost predicate Storable(input: PreparationInput) {
    var v, e := input.artifact, input.envelope;
    && ProviderName(v.submissionProviderId) && ProviderName(v.reconciliationProviderId)
    && v.submissionProviderId != v.reconciliationProviderId
    && v.cluster == "solana-devnet" && input.generation >= 1 && v.signature != "" && v.sourceTokenAccount != ""
    && v.mint != "" && v.destination != "" && IsHex64(v.signedTransactionDigest) && IsHex64(v.policyHash)
    && Numeral(v.rawAmount, 1) && Numeral(v.lastValidBlockHeight, 0) && 0 <= v.decimals <= 255
    && v.recentBlockhash != "" && v.signerKeyId != "" && v.signerKeyVersion != "" && v.signerPublicKey != ""
    && e.algorithm == "aes-256-gcm" && ProviderName(e.keyVersion) && |e.initializationVector| == 12
    && |e.authenticationTag| == 16 && e.ciphertext != []
  }

  lemma StorableIff(input: PreparationInput)
    ensures ArtifactRefusal(input).None? <==> Storable(input)
  {
    NumeralIsCanonical(input.artifact.rawAmount);
    NumeralIsCanonical(input.artifact.lastValidBlockHeight);
  }

  /** No stored preparation has the id, the signature or the digest. */
  ghost predicate Unused(s: Store, input: PreparationInput) {
    forall k :: k in s.preparations ==>
      && k != input.preparationId
      && s.preparations[k].input.artifact.signature != input.artifact.signature
      && s.preparations[k].input.artifact.signedTransactionDigest != input.artifact.signedTransactionDigest
  }

  lemma UnusedIff(s: Store, input: PreparationInput)
    requires Indexed(s)
    ensures FirstConflict(s.order, s.preparations, input).None? <==> Unused(s, input)
  {
    ConflictFree(s.order, s.preparations, input);
    if FirstConflict(s.order, s.preparations, input).None? { NoConflictInStore(s, input); }
  }

  /** A first preparation is stored iff it is well formed, unused, and the execution has no preparation yet. */
  lemma PersistAcceptsIff(s: Store, input: PreparationInput)
    requires Valid(s)
    ensures PersistPreparation(s, input).1.Ok? <==>
            Storable(input) && Unused(s, input)
            && forall k :: k in s.preparations ==> s.preparations[k].input.executionId != input.executionId
  {
    StorableIff(input);
    UnusedIff(s, input);
    ActiveIsTheLiveOne(s, input.executionId);
  }

  /** The preparation is the execution's live one, owned by that actor and without a commitment. */
  ghost predicate NeverContacted(s: Store, k: Id, e: Id, actor: Id) {
    && k in s.preparations && e !in s.commitments && IsLive(s.preparations[k], e)
    && s.preparations[k].input.actorSubject == actor
  }

  lemma NeverContactedIff(s: Store, k: Id, e: Id, actor: Id)
    requires Valid(s)
    ensures NeverContacted(s, k, e, actor) <==>
              && k in s.preparations && s.preparations[k].input.executionId == e
              && s.preparations[k].input.actorSubject == actor && s.preparations[k].state.PreparedNotContacted?
  {
    assert CommittedBy(s.preparations, s.commitments, k);
    if e in s.commitments && k in s.preparations && IsLive(s.preparations[k], e) {
      assert Matches(s.preparations, s.commitments, e);
      var c := s.commitments[e].preparationId;
      assert SameExecution(s.preparations, c, k);
    }
  }

  /** A replacement is stored iff it continues the execution's live, never contacted preparation of the same owner. */
  lemma ReplaceAcceptsIff(s: Store, priorId: Id, input: PreparationInput, at: Timestamp)
    requires Valid(s)
    ensures ReplaceExpiredPreparation(s, priorId, input, at).1.Ok? <==>
            && Storable(input) && Unused(s, input) && NeverContacted(s, priorId, input.executionId, input.actorSubject)
            && input.generation == s.preparations[priorId].input.generation + 1
  {
    StorableIff(input);
    UnusedIff(s, input);
    NeverContactedIff(s, priorId, input.executionId, input.actorSubject);
  }

  // ---- finding -------------------------------------------------------------------------------------------

  /** A preparation is shown to an actor iff it is the execution's live one and the actor's own. */
  lemma FoundIff(s: Store, e: Id, actor: Id, p: Preparation)
    requires Valid(s)
    ensures FindPreparation(s, e, actor) == Some(p) <==>
              && p.input.preparationId in s.preparations && s.preparations[p.input.preparationId] == p
              && IsLive(p, e) && p.input.actorSubject == actor
    ensures FindCommitment(s, e, actor).Some? <==>
              exists k :: NamesCommitted(s, k, e, actor) && FindCommitment(s, e, actor) == Some(s.commitments[e])
  {
    ActiveIsTheLiveOne(s, e);
    if e in s.commitments {
      assert Matches(s.preparations, s.commitments, e);
      assert IsLive(s.preparations[s.commitments[e].preparationId], e);
      if FindCommitment(s, e, actor).Some? { assert NamesCommitted(s, s.commitments[e].preparationId, e, actor); }
    }
  }

  // ---- the commitment ------------------------------------------------------------------------------------

  /**
   Authority is granted iff the caller owns the execution's live preparation and nothing was committed; the commitment
   then names the request and the prepared signature and digest. A committed execution only repeats its answer.
   */
  lemma CommitGrantsIff(s: Store, r: CommitRequest)
    requires Valid(s)
    ensures var (next, reply) := CommitSubmission(s, r);
            && (reply.Ok? && reply.value.submissionAuthorized <==>
                  NeverContacted(s, r.preparationId, r.executionId, r.actorSubject))
            && (reply.Ok? && !reply.value.submissionAuthorized <==>
                  r.executionId in s.commitments && s.commitments[r.executionId].preparationId == r.preparationId
                  && s.commitments[r.executionId].commitmentId == r.commitmentId)
            && (reply.Ok? ==>
                  && r.executionId in next.commitments && r.preparationId in next.preparations
                  && reply.value.commitment == next.commitments[r.executionId]
                  && reply.value.preparation == next.preparations[r.preparationId])
            && (next != s ==> Granted(s, r, next))
            && (next != s <==> reply.Ok? && reply.value.submissionAuthorized)
  {
    NeverContactedIff(s, r.preparationId, r.executionId, r.actorSubject);
    if r.executionId in s.commitments { assert Matches(s.preparations, s.commitments, r.executionId); }
  }

  /** The one commitment is new, and its preparation went from never contacted to committed. */
  ghost predicate Granted(s: Store, r: CommitRequest, next: Store) {
    && r.preparationId in s.preparations && r.preparationId in next.preparations
    && r.executionId in next.commitments
    && var p, q, c := s.preparations[r.preparationId], next.preparations[r.preparationId],
                      next.commitments[r.executionId];
       && next == s.(preparations := s.preparations[r.preparationId := q],
                     commitments := s.commitments[r.executionId := c])
       && q.input == p.input && q.state.SubmissionCommitted? && q.committedAt == Some(r.committedAt)
       && q.abandonedAt == p.abandonedAt
       && c.commitmentId == r.commitmentId && c.executionId == r.executionId && c.preparationId == r.preparationId
       && c.committedAt == r.committedAt && c.signature == p.input.artifact.signature
       && c.signedTransactionDigest == p.input.artifact.signedTransactionDigest
  }

  // ---- the two logs --------------------------------------------------------------------------------------

  /** The record names the execution's committed preparation and its owner. */
  ghost predicate NamesCommitted(s: Store, k: Id, e: Id, actor: Id) {
    && e in s.commitments && s.commitments[e].preparationId == k && k in s.preparations
    && s.preparations[k].input.actorSubject == actor
  }

  lemma NamesCommittedIff(s: Store, k: Id, e: Id, actor: Id)
    requires Valid(s) && e in s.commitments
    ensures NamesCommitted(s, k, e, actor) <==>
              && k in s.preparations && s.preparations[k].input.executionId == e
              && s.preparations[k].input.actorSubject == actor && IsPastContact(s.preparations[k].state)
  {
    assert Matches(s.preparations, s.commitments, e);
    if k in s.preparations { assert CommittedBy(s.preparations, s.commitments, k); }
  }

  /** A provider's word, with at most `width` characters. */
  predicate Word(s: string, width: nat) { ProviderName(s) && |s| <= width }

  /** Certainty and outcome of a submission record have to agree. */
  ghost predicate Recordable(v: SubmissionEvidence) {
    && Word(v.providerId, 128) && ProviderName(v.signature) && HasText(v.providerErrorCode, IsErrorToken)
    && (v.slot.Some? ==> Numeral(v.slot.value, 0)) && HasText(v.confirmationStatus, IsStatusToken)
    && (v.certainty.NotStarted? <==> v.outcome.ValidationFailed?)
    && (v.certainty.ContactAccepted? <==> v.outcome.SubmissionAccepted? || v.outcome.SubmissionSettled?)
  }

  /** Only finalized evidence with its slot ends an execution, and finalized evidence says nothing else. */
  ghost predicate Observable(v: ReconciliationEvidence, fence: Fence) {
    && Word(v.providerId, 128) && Word(v.signature, 256) && v.observedAt.finite
    && (v.slot.Some? ==> Numeral(v.slot.value, 0)) && HasText(v.confirmationStatus, IsStatusToken)
    && HasText(v.errorCode, IsErrorToken)
    && (v.outcome.ObservedFailed? ==> v.errorCode == Some("PROVIDER_REPORTED_FAILURE"))
    && (v.errorCode.Some? ==> v.outcome.ObservedFailed? || v.outcome.ObservedUnknown?)
    && (v.outcome.ObservedSettled? || v.outcome.ObservedFailed? <==> v.confirmationStatus == Some("finalized"))
    && (v.outcome.ObservedSettled? || v.outcome.ObservedFailed? ==> v.slot.Some?)
    && Word(fence.leaseOwner, 128) && fence.leaseClaimedAt.finite
  }

  lemma RecordableIff(v: SubmissionEvidence)
    ensures SubmissionRefusal(v).None? <==> Recordable(v)
  {
    if v.slot.Some? { NumeralIsCanonical(v.slot.value); }
  }

  lemma ObservableIff(v: ReconciliationEvidence, fence: Fence)
    ensures ReconciliationRefusal(v, fence).None? <==> Observable(v, fence)
  {
    if v.slot.Some? { NumeralIsCanonical(v.slot.value); }
  }

  ghost predicate SubmissionNames(s: Store, v: SubmissionEvidence, actor: Id) {
    && NamesCommitted(s, v.preparationId, v.executionId, actor)
    && v.commitmentId == s.commitments[v.executionId].commitmentId
    && v.signature == s.commitments[v.executionId].signature
    && v.providerId == s.preparations[v.preparationId].input.artifact.submissionProviderId
  }

  /** A submission is recorded iff it names the commitment in full, nothing has ended it, and its id is new. */
  lemma SubmissionIsRecordedIff(s: Store, v: SubmissionEvidence, actor: Id)
    requires Valid(s)
    ensures RecordSubmission(s, v, actor).1.Ok? <==>
              && Recordable(v) && SubmissionNames(s, v, actor) && !IsTerminal(s.preparations[v.preparationId].state)
              && forall i :: 0 <= i < |SubmissionLog(s, v.executionId)| ==>
                   SubmissionLog(s, v.executionId)[i].observationId != v.observationId
    ensures RecordSubmission(s, v, actor).1.Ok? ==>
              && SubmissionLog(RecordSubmission(s, v, actor).0, v.executionId) == SubmissionLog(s, v.executionId) + [v]
              && RecordSubmission(s, v, actor).1.value.observation == v
    ensures RecordSubmission(s, v, actor).1.Err? ==> RecordSubmission(s, v, actor).0 == s
  {
    RecordableIff(v);
    if v.executionId in s.commitments { NamesCommittedIff(s, v.preparationId, v.executionId, actor); }
  }

  ghost predicate ObservationNames(s: Store, v: ReconciliationEvidence) {
    && NamesCommitted(s, v.preparationId, v.executionId, v.actorSubject)
    && v.signature == s.commitments[v.executionId].signature
    && v.providerId == s.preparations[v.preparationId].input.artifact.reconciliationProviderId
  }

  /** There is a last observation, and it either ended the execution or reports the same. */
  ghost predicate Stands(s: Store, v: ReconciliationEvidence)
    requires v.preparationId in s.preparations
  {
    var log := ReconciliationLog(s, v.executionId);
    log != [] && (IsTerminal(s.preparations[v.preparationId].state)
                  || SameReconciliation(log[|log| - 1].evidence, v))
  }

  lemma NamesPrepared(s: Store, v: ReconciliationEvidence)
    requires Valid(s) && v.executionId in s.commitments && v.preparationId in s.preparations
    requires v.signature == s.commitments[v.executionId].signature
    ensures v.signature == s.preparations[v.preparationId].input.artifact.signature
            <==> s.commitments[v.executionId].preparationId == v.preparationId
  {
    assert Matches(s.preparations, s.commitments, v.executionId);
    assert Distinct(s.preparations, s.commitments[v.executionId].preparationId, v.preparationId);
  }

  /** An observation is answered from the log iff it stands there, and appended iff it says something new in time. */
  lemma ObservationIsRecordedIff(s: Store, v: ReconciliationEvidence, fence: Fence)
    requires Valid(s)
    ensures var (next, reply) := RecordReconciliation(s, v, fence);
            && (reply.Ok? && next == s <==> Observable(v, fence) && ObservationNames(s, v) && Stands(s, v))
            && (next != s <==>
                  && Observable(v, fence) && ObservationNames(s, v) && !Stands(s, v)
                  && !IsTerminal(s.preparations[v.preparationId].state)
                  && !HasReconciliationId(ReconciliationLog(s, v.executionId), v.observationId))
            && (next != s ==> reply.Ok? && Appends(s, v, next))
  {
    ObservableIff(v, fence);
    if v.executionId in s.commitments && v.preparationId in s.preparations {
      NamesCommittedIff(s, v.preparationId, v.executionId, v.actorSubject);
      if v.signature == s.commitments[v.executionId].signature { NamesPrepared(s, v); }
    }
    if RecordReconciliation(s, v, fence).0 != s { ReconcileEffect(s, v, fence); }
  }

  ghost predicate Appends(s: Store, v: ReconciliationEvidence, next: Store) {
    var log := ReconciliationLog(s, v.executionId);
    ReconciliationLog(next, v.executionId) == log + [Reconciliation(v, |log| + 1)]
  }
}
