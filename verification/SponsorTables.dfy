/**
 The tables of sponsor finalization as values: attempt heads and attempts, finalization rows, the evidence
 ledgers, and the budget families. A unique index is a map from the indexed columns to the row's key.
 */
module SponsorTables {
  import opened Wrappers

  type Id = nat

  datatype AttemptIdentity = AttemptIdentity(
    intentId: Id, intentVersion: nat, attemptId: Id, generation: nat, fenceToken: Id)

  datatype Key = Key(intent: Id, generation: nat)

  datatype Sponsor = Sponsor(network: Id, publicKey: Id, keyVersion: Id)

  /** Amounts in the units of the fee asset, and a number of operations that still hold theirs. */
  datatype Charge = Charge(base: nat, priority: nat, rent: nat, outstanding: nat)

  datatype Envelope = Envelope(
    attempt: AttemptIdentity, principal: Id, sponsor: Sponsor, user: Id, runtime: Id, maxBase: nat,
    maxPriority: nat, maxRent: nat)

  datatype Tuple = Tuple(
    attempt: AttemptIdentity, sponsor: Sponsor, messageDigest: Id, user: Id, customerSignature: Id,
    envelopeDigest: Id, consentId: Id, runtime: Id, exposureId: Id)

  datatype AttemptState = Open | Cancelled | FinalizationCommitted

  datatype Head = Head(principal: Id, current: nat)

  datatype Attempt = Attempt(
    envelope: Envelope, digest: Id, messageDigest: Id, blockhash: Id, exposureId: Id, state: AttemptState,
    finalizationId: Option<Id>)

  datatype Attempts = Attempts(
    heads: map<Id, Head>, rows: map<Key, Attempt>, byDigest: map<Id, Key>, attemptIds: set<Id>,
    fenceTokens: set<Id>, exposureIds: set<Id>)

  datatype SignerState =
    | NotContacted | ContactCommitted | ResultUnknown | SignerRefused | ResultAvailable | ExpiredNeverContacted

  datatype ExposureState = Reserved | Uncertain | Released | Consumed

  datatype Accounting = Accounting(base: nat, priority: nat, rent: nat, reference: Id)

  datatype Signed = Signed(artifact: Id, transactionId: Id)

  datatype Operation = Operation(
    id: Id, key: Key, tuple: Tuple, tupleDigest: Id, budgetId: Id, budgetVersion: nat, exposureId: Id,
    requested: Charge, signerOperationId: Id, artifact: Id, signerState: SignerState,
    exposureState: ExposureState, signed: Option<Signed>, refusal: Option<Id>, consumed: Option<Accounting>,
    version: nat)

  /** `order` lists the finalization ids as they were inserted. */
  datatype Operations = Operations(
    order: seq<Id>, rows: map<Id, Operation>, byGeneration: map<Key, Id>, signerIds: set<Id>)

  datatype Validation = CustomerVerified | Rejected | InvalidArtifact | SponsorResultPresent

  datatype Callback = Callback(key: Key, validation: Validation)

  datatype EffectKey = EffectKey(finalizationId: Id, reference: Id)

  /** What the trusted observer reports of a finalized transaction. */
  datatype Observation = Observation(network: Id, transactionId: Id, accounting: Accounting)

  datatype Effect =
    | PossibleEffect(network: Id, transaction: Option<Id>)
    | FinalizedAccounting(observation: Observation)

  datatype Contact = Contact(signerOperationId: Id, tupleDigest: Id)

  datatype Expiry = Expiry(generation: nat, exposureId: Id, released: Charge, reasons: seq<Reason>)

  datatype Evidence = Evidence(
    contacts: map<Id, Contact>, effects: map<EffectKey, Effect>, callbacks: set<Callback>, incidents: set<Id>,
    expiries: map<Id, Expiry>)

  datatype Validity = Validity(expiresAt: nat, revoked: bool)

  /** `owned`: the session belongs to the principal that consented. */
  datatype Session = Session(createdAt: nat, validity: Validity, owned: bool)

  /**
   The rows an operation's authority rests on, read under their locks at one moment; `qualified` is the service's
   own check of assets and evidence in the same transaction.
   */
  datatype Authority = Authority(
    now: nat, intentExpiresAt: nat, accountActive: bool, consent: Validity, authenticatedAt: nat,
    runtime: Validity, session: Option<Session>, networkRevoked: bool, assetRevoked: bool, qualified: bool)

  datatype Reason =
    | NetworkRevoked | AssetRevoked | IntentExpired | AccountInactive | ConsentRevoked | ConsentExpired
    | RuntimeRevoked | RuntimeExpired | SessionRevoked | SessionExpired

  /** A row of the network registry. */
  datatype Registered = Registered(effectiveAt: nat, revoked: bool)

  datatype BudgetVersion = BudgetVersion(family: Id, version: nat, sponsor: Sponsor, limits: Charge)

  datatype BudgetHead = BudgetHead(sponsor: Sponsor, current: Id, active: bool, revision: nat)

  datatype Budgets = Budgets(
    versions: map<Id, BudgetVersion>, heads: map<Id, BudgetHead>, bySponsor: map<Sponsor, Id>)

  datatype Db = Db(attempts: Attempts, operations: Operations, evidence: Evidence, budgets: Budgets)

  const EMPTY := Db(
    Attempts(map[], map[], map[], {}, {}, {}), Operations([], map[], map[], {}),
    Evidence(map[], map[], {}, {}, map[]), Budgets(map[], map[], map[]))

  datatype Refusal =
    | PrincipalConflict | MessageConflict | ReplacementRefused | FirstMustBeOne | NotEligible | UniqueViolation
    | StaleCancellation | FenceMismatch | UnknownEnvelope | NotCustomerOnly | StaleGeneration
    | InvalidTuple | TupleConflict | FenceRefused | BudgetDisabled | BudgetExhausted | InvalidLimit
    | UnknownFinalization | SignerFenceMismatch | InvalidatedAuthority | ContradictoryEvidence | Frozen
    | NoContactAuthority
    | SignerConflict | InvalidSize | NoCompletedArtifact | CannotReclaim | NotInvalidated | EffectConflict
    | AccountingConflict | StaleRevision

  /** How the sponsored-signature inspection of an artifact ends. */
  datatype Inspection =
    | Unreadable | FullySigned(customer: Id, transactionId: Id) | CustomerOnly(customer: Id) | Unsigned

  /**
   The protocol library: digests of envelopes, messages and tuples, the message an artifact carries, the
   inspection of its signatures, and the size and name checks on artifacts and references. Nothing is assumed of
   it except where a lemma says so.
   */
  datatype Library = Library(
    bindingDigest: Envelope -> Id, messageDigest: (Envelope, Id) -> Id, tupleDigest: Tuple -> Id,
    carriedMessage: (Id, Envelope, Id) -> Option<Id>, inspect: (Id, Id, Id, Id) -> Inspection,
    validArtifact: Id -> bool, validReference: Id -> bool)

  ghost predicate CollisionFree(lib: Library) {
    forall t, u :: lib.tupleDigest(t) == lib.tupleDigest(u) ==> t == u
  }
}
