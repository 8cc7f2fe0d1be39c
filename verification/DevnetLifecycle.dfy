/**
 Devnet execution state: lifecycle transitions and the assertions every stored record passes.
 A thrown error is a `Refusal`; the constructors stand for the messages.
 */
module DevnetLifecycle {
  import opened Wrappers
  import opened Decimals

  /** Server-chosen identifiers are only ever compared, so a number stands for each. */
  type Id = nat

  datatype LifecycleState =
    | PreparedNotContacted
    | SubmissionCommitted
    | AcceptedPending
    | UnknownReconciliationRequired
    | Settled
    | Failed
    | AbandonedPreContact

  datatype ReconciliationOutcome =
    ObservedMissing | ObservedPending | ObservedSettled | ObservedFailed | ObservedUnknown

  datatype SubmissionOutcome =
    SubmissionAccepted | SubmissionSettled | SubmissionRejected | SubmissionUnknown | ValidationFailed

  datatype ContactCertainty = NotStarted | MayHaveOccurred | ContactAccepted

  /** A timestamp text, and whether `Date.parse` reads it as a finite time. */
  datatype Timestamp = Timestamp(text: string, finite: bool)

  datatype Refusal =
    // artifact checks
    | InvalidProviderId | ProvidersNotDistinct | InvalidPreparationIdentity | IncompleteArtifact
    | InvalidAmountOrBlockhash | IncompleteSignerMetadata | InvalidEnvelope
    // repository
    | PreparationIdExists | SignatureExists | DigestExists | AlreadyActive
    | PriorNotFound | CommittedIsReconciliationOnly | GenerationMustIncrement
    | CommitmentConflict | PreparationNotFound | NotNeverContacted
    | CommittedPreparationNotFound | ProviderMismatch | SignatureMismatch | ObservationIdExists
    // lifecycle
    | CommitmentRequired | TerminalTruth
    // evidence
    | InvalidSignatureEvidence | InvalidObservationTime | InvalidSlot | InvalidConfirmationStatus
    | InvalidFailureEvidence | NotAuthoritativeFailure | TerminalNeedsFinalized | FinalizedMustBeTerminal
    | MissingFence | InvalidErrorCode | ContradictoryCertainty

  datatype Envelope = Envelope(
    algorithm: string, keyVersion: string, initializationVector: seq<bv8>, authenticationTag: seq<bv8>,
    ciphertext: seq<bv8>)

  datatype Artifact = Artifact(
    signature: string, signedTransactionDigest: string, cluster: string, mint: string, rawAmount: string,
    destination: string, sourceTokenAccount: string, decimals: int, recentBlockhash: string,
    lastValidBlockHeight: string, signerKeyId: string, signerKeyVersion: string, signerPublicKey: string,
    policyHash: string, submissionProviderId: string, reconciliationProviderId: string)

  datatype PreparationInput = PreparationInput(
    preparationId: Id, executionId: Id, paymentIntentId: Id, actorSubject: Id, generation: int,
    envelope: Envelope, artifact: Artifact, preparedAt: Timestamp)

  datatype Fence = Fence(leaseOwner: string, leaseClaimedAt: Timestamp)

  datatype ReconciliationEvidence = ReconciliationEvidence(
    observationId: Id, executionId: Id, actorSubject: Id, preparationId: Id,
    providerId: string, signature: string, outcome: ReconciliationOutcome, observedAt: Timestamp,
    slot: Option<string>, confirmationStatus: Option<string>, errorCode: Option<string>)

  datatype SubmissionEvidence = SubmissionEvidence(
    observationId: Id, executionId: Id, preparationId: Id, commitmentId: Id,
    providerId: string, signature: string, outcome: SubmissionOutcome, certainty: ContactCertainty,
    observedAt: Timestamp, providerErrorCode: Option<string>, slot: Option<string>,
    confirmationStatus: Option<string>)

  // ---- text patterns -------------------------------------------------------------------------

  /** The characters JavaScript's `trim` removes. */
  predicate IsSpace(c: char) {
    || c in ['\t', '\n', '\r', ' ']
    || c as int in [0x0B, 0x0C, 0xA0, 0x1680, 0x2028, 0x2029, 0x202F, 0x205F, 0x3000, 0xFEFF]
    || 0x2000 <= c as int <= 0x200A
  }

  predicate IsTrimmed(s: string) {
    s != "" ==> !IsSpace(s[0]) && !IsSpace(s[|s| - 1])
  }

  predicate IsAlphanumeric(c: char) { 'A' <= c <= 'Z' || 'a' <= c <= 'z' || IsDigit(c) }

  /** The pattern /^[a-f0-9]{64}$/. */
  predicate IsHex64(s: string) {
    |s| == 64 && forall i :: 0 <= i < |s| ==> IsDigit(s[i]) || 'a' <= s[i] <= 'f'
  }

  /** The pattern /^[A-Za-z0-9_-]{1,32}$/. */
  predicate IsStatusToken(s: string) {
    1 <= |s| <= 32 && forall i :: 0 <= i < |s| ==> IsAlphanumeric(s[i]) || s[i] in ['_', '-']
  }

  /** The pattern /^[A-Za-z0-9_.:-]{1,64}$/. */
  predicate IsErrorToken(s: string) {
    1 <= |s| <= 64 && forall i :: 0 <= i < |s| ==> IsAlphanumeric(s[i]) || s[i] in ['_', '.', ':', '-']
  }

  predicate HasText(o: Option<string>, p: string -> bool) { o.Some? ==> p(o.value) }

  // ---- assertions ----------------------------------------------------------------------------

  function ProviderRefusal(submission: string, reconciliation: string): Option<Refusal> {
    if submission == "" || !IsTrimmed(submission) then Some(InvalidProviderId)
    else if reconciliation == "" || !IsTrimmed(reconciliation) then Some(InvalidProviderId)
    else if submission == reconciliation then Some(ProvidersNotDistinct)
    else None
  }

  function ArtifactRefusal(input: PreparationInput): Option<Refusal> {
    var v := input.artifact;
    var e := input.envelope;
    if ProviderRefusal(v.submissionProviderId, v.reconciliationProviderId).Some? then
      ProviderRefusal(v.submissionProviderId, v.reconciliationProviderId)
    else if v.cluster != "solana-devnet" || input.generation < 1 then Some(InvalidPreparationIdentity)
    else if v.signature == "" || !IsHex64(v.signedTransactionDigest) || v.sourceTokenAccount == ""
            || v.mint == "" || v.destination == "" || !Canonical(v.rawAmount) || v.rawAmount[0] == '0' then
      Some(IncompleteArtifact)
    else if v.decimals < 0 || v.decimals > 255 || !Canonical(v.lastValidBlockHeight) then
      Some(InvalidAmountOrBlockhash)
    else if v.recentBlockhash == "" || v.signerKeyId == "" || v.signerKeyVersion == ""
            || v.signerPublicKey == "" || !IsHex64(v.policyHash) then
      Some(IncompleteSignerMetadata)
    else if e.algorithm != "aes-256-gcm" || e.keyVersion == "" || !IsTrimmed(e.keyVersion)
            || |e.initializationVector| != 12 || |e.authenticationTag| != 16 || e.ciphertext == [] then
      Some(InvalidEnvelope)
    else None
  }

  function ReconciliationLifecycle(current: LifecycleState, outcome: ReconciliationOutcome)
    : Result<LifecycleState, Refusal>
  {
    if current.PreparedNotContacted? || current.AbandonedPreContact? then Err(CommitmentRequired)
    else if current.Settled? || current.Failed? then Err(TerminalTruth)
    else match outcome
      case ObservedSettled => Ok(Settled)
      case ObservedFailed => Ok(Failed)
      case ObservedPending => Ok(AcceptedPending)
      case _ => Ok(UnknownReconciliationRequired)
  }

  function SubmissionLifecycle(current: LifecycleState, outcome: SubmissionOutcome)
    : Result<LifecycleState, Refusal>
  {
    if current.PreparedNotContacted? || current.AbandonedPreContact? then Err(CommitmentRequired)
    else if current.Settled? || current.Failed? then Err(TerminalTruth)
    else match outcome
      case SubmissionSettled => Ok(Settled)
      case SubmissionRejected => Ok(Failed)
      case SubmissionAccepted => Ok(AcceptedPending)
      case _ => Ok(if current.AcceptedPending? then current else UnknownReconciliationRequired)
  }

  function ReconciliationRefusal(v: ReconciliationEvidence, fence: Fence): Option<Refusal> {
    if v.providerId == "" || !IsTrimmed(v.providerId) || |v.providerId| > 128 then Some(InvalidProviderId)
    else if v.signature == "" || !IsTrimmed(v.signature) || |v.signature| > 256 then Some(InvalidSignatureEvidence)
    else if !v.observedAt.finite then Some(InvalidObservationTime)
    else if !HasText(v.slot, Canonical) then Some(InvalidSlot)
    else if !HasText(v.confirmationStatus, IsStatusToken) then Some(InvalidConfirmationStatus)
    else if (v.outcome.ObservedFailed? && v.errorCode.None?)
            || (v.errorCode.Some? && !v.outcome.ObservedFailed? && !v.outcome.ObservedUnknown?)
            || !HasText(v.errorCode, IsErrorToken) then
      Some(InvalidFailureEvidence)
    else if v.outcome.ObservedFailed? && v.errorCode != Some("PROVIDER_REPORTED_FAILURE") then
      Some(NotAuthoritativeFailure)
    else if (v.outcome.ObservedSettled? || v.outcome.ObservedFailed?)
            && (v.confirmationStatus != Some("finalized") || v.slot.None?) then
      Some(TerminalNeedsFinalized)
    else if !v.outcome.ObservedSettled? && !v.outcome.ObservedFailed?
            && v.confirmationStatus == Some("finalized") then
      Some(FinalizedMustBeTerminal)
    else if fence.leaseOwner == "" || !IsTrimmed(fence.leaseOwner) || |fence.leaseOwner| > 128
            || !fence.leaseClaimedAt.finite then
      Some(MissingFence)
    else None
  }

  function SubmissionRefusal(v: SubmissionEvidence): Option<Refusal> {
    if v.providerId == "" || !IsTrimmed(v.providerId) || |v.providerId| > 128
       || v.signature == "" || !IsTrimmed(v.signature) then
      Some(InvalidSignatureEvidence)
    else if !HasText(v.providerErrorCode, IsErrorToken) then Some(InvalidErrorCode)
    else if !HasText(v.slot, Canonical) then Some(InvalidSlot)
    else if !HasText(v.confirmationStatus, IsStatusToken) then Some(InvalidConfirmationStatus)
    else if v.outcome.ValidationFailed? != v.certainty.NotStarted?
            || (v.outcome.SubmissionAccepted? || v.outcome.SubmissionSettled?) != v.certainty.ContactAccepted? then
      Some(ContradictoryCertainty)
    else None
  }
}
