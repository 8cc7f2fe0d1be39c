/**
 Each repository or administration transaction of sponsor finalization as one function on the tables: the whole
 call either takes effect or leaves the tables as they were.
 */
module SponsorSteps {
  import opened Wrappers
  import opened SponsorTables
  import opened SponsorClaim

  // ---- attempts ----------------------------------------------------------------------------------------

  /** `eligible`: within validity, active principal, both assets qualified. */
  datatype Registration = Registration(envelope: Envelope, blockhash: Id, exposureId: Id, eligible: bool)

  function KeyOf(e: Envelope): Key { Key(e.attempt.intentId, e.attempt.generation) }

  function NewAttempt(lib: Library, r: Registration): Attempt {
    Attempt(r.envelope, lib.bindingDigest(r.envelope), lib.messageDigest(r.envelope, r.blockhash), r.blockhash,
            r.exposureId, Open, None)
  }

  predicate Collides(s: Attempts, a: Attempt) {
    || KeyOf(a.envelope) in s.rows || a.digest in s.byDigest || a.envelope.attempt.attemptId in s.attemptIds
    || a.envelope.attempt.fenceToken in s.fenceTokens || a.exposureId in s.exposureIds
  }

  function InsertAttempt(s: Attempts, head: Head, a: Attempt): Attempts {
    var key := KeyOf(a.envelope);
    Attempts(s.heads[key.intent := head], s.rows[key := a], s.byDigest[a.digest := key],
             s.attemptIds + {a.envelope.attempt.attemptId}, s.fenceTokens + {a.envelope.attempt.fenceToken},
             s.exposureIds + {a.exposureId})
  }

  function Register(lib: Library, db: Db, r: Registration): (Db, Result<Id, Refusal>) {
    var s, a, key := db.attempts, NewAttempt(lib, r), KeyOf(r.envelope);
    var head := if key.intent in s.heads then s.heads[key.intent] else Head(r.envelope.principal, key.generation);
    var prior := Key(key.intent, head.current);
    if head.principal != r.envelope.principal then (db, Err(PrincipalConflict))
    else if prior in s.rows && s.rows[prior].digest == a.digest then
      if s.rows[prior].messageDigest == a.messageDigest && s.rows[prior].blockhash == a.blockhash
      then (db, Ok(a.digest)) else (db, Err(MessageConflict))
    else if prior in s.rows && !MayReplace(FenceOf(s.rows[prior]), r.envelope.attempt, a.digest) then
      (db, Err(ReplacementRefused))
    else if prior !in s.rows && key.generation != 1 then (db, Err(FirstMustBeOne))
    else if !r.eligible then (db, Err(NotEligible))
    else if Collides(s, a) then (db, Err(UniqueViolation))
    else (db.(attempts := InsertAttempt(s, head.(current := key.generation), a)), Ok(a.digest))
  }

  datatype CancelAnswer = AnswerCancelled | FinalizationWon

  function Cancel(db: Db, key: Key, fenceToken: Id, principal: Id): (Db, Result<CancelAnswer, Refusal>) {
    var s := db.attempts;
    if key.intent !in s.heads || s.heads[key.intent] != Head(principal, key.generation) || key !in s.rows then
      (db, Err(StaleCancellation))
    else if s.rows[key].envelope.attempt.fenceToken != fenceToken then (db, Err(FenceMismatch))
    else if s.rows[key].state.FinalizationCommitted? then (db, Ok(FinalizationWon))
    else (db.(attempts := SetAttempt(s, key, s.rows[key].(state := Cancelled))), Ok(AnswerCancelled))
  }

  function SetAttempt(s: Attempts, key: Key, a: Attempt): Attempts { s.(rows := s.rows[key := a]) }

  // ---- budgets -----------------------------------------------------------------------------------------

  const NOTHING := Charge(0, 0, 0, 0)

  function Add(a: Charge, b: Charge): Charge {
    Charge(a.base + b.base, a.priority + b.priority, a.rent + b.rent, a.outstanding + b.outstanding)
  }

  predicate Within(a: Charge, b: Charge) {
    a.base <= b.base && a.priority <= b.priority && a.rent <= b.rent && a.outstanding <= b.outstanding
  }

  /** Realised costs once consumed, the requested maximum while reserved or uncertain, nothing once released. */
  function Charged(o: Operation): Charge {
    if o.exposureState.Consumed? && o.consumed.Some? then
      Charge(o.consumed.value.base, o.consumed.value.priority, o.consumed.value.rent, 0)
    else if o.exposureState.Reserved? || o.exposureState.Uncertain? then o.requested.(outstanding := 1)
    else NOTHING
  }

  /** The charge of the operations in `order` whose budget is in `scope`. */
  function Total(order: seq<Id>, rows: map<Id, Operation>, scope: set<Id>): Charge {
    if order == [] then NOTHING
    else Add(Total(order[..|order| - 1], rows, scope), Share(rows, order[|order| - 1], scope))
  }

  function Share(rows: map<Id, Operation>, id: Id, scope: set<Id>): Charge {
    if id in rows && rows[id].budgetId in scope then Charged(rows[id]) else NOTHING
  }

  function Family(b: Budgets, family: Id): set<Id> {
    set id | id in b.versions && b.versions[id].family == family
  }

  function FamilyCharge(db: Db, family: Id): Charge {
    Total(db.operations.order, db.operations.rows, Family(db.budgets, family))
  }

  function VersionCharge(db: Db, budgetId: Id): Charge {
    Total(db.operations.order, db.operations.rows, {budgetId})
  }

  datatype BudgetRequest = BudgetRequest(budgetId: Id, limits: Charge)

  predicate InEffect(network: Option<Registered>, now: nat) {
    network.Some? && !network.value.revoked && network.value.effectiveAt <= now
  }

  /** A new family whose id is its first version's; `network` is the registry row of the sponsor's network. */
  function InstallBudget(db: Db, sponsor: Sponsor, r: BudgetRequest, network: Option<Registered>, now: nat)
    : (Db, Result<nat, Refusal>)
  {
    var b := db.budgets;
    if r.limits.outstanding == 0 then (db, Err(InvalidLimit))
    else if !InEffect(network, now) then (db, Err(NotEligible))
    else if r.budgetId in b.versions || r.budgetId in b.heads || sponsor in b.bySponsor then (db, Err(UniqueViolation))
    else
      (db.(budgets := Budgets(b.versions[r.budgetId := BudgetVersion(r.budgetId, 1, sponsor, r.limits)],
                              b.heads[r.budgetId := BudgetHead(sponsor, r.budgetId, true, 1)],
                              b.bySponsor[sponsor := r.budgetId])), Ok(1))
  }

  function SetBudgetStatus(db: Db, family: Id, expected: nat, active: bool): (Db, Result<nat, Refusal>) {
    var b := db.budgets;
    if family !in b.heads || b.heads[family].revision != expected then (db, Err(StaleRevision))
    else if b.heads[family].active == active then (db, Ok(expected))
    else
      (db.(budgets := b.(heads := b.heads[family := b.heads[family].(active := active, revision := expected + 1)])),
       Ok(expected + 1))
  }

  function ReviseBudget(db: Db, family: Id, expected: nat, r: BudgetRequest): (Db, Result<nat, Refusal>) {
    var b := db.budgets;
    if r.limits.outstanding == 0 then (db, Err(InvalidLimit))
    else if family !in b.heads || b.heads[family].revision != expected || b.heads[family].current !in b.versions then
      (db, Err(StaleRevision))
    else if r.budgetId in b.versions then (db, Err(UniqueViolation))
    else
      var head := b.heads[family];
      var next := b.versions[head.current].version + 1;
      (db.(budgets := b.(versions := b.versions[r.budgetId := BudgetVersion(family, next, head.sponsor, r.limits)],
                         heads := b.heads[family := head.(current := r.budgetId, revision := expected + 1)])),
       Ok(expected + 1))
  }

  // ---- claim -------------------------------------------------------------------------------------------

  /** `eligible`: assets qualified and consent and runtime evidence authoritative, before and after the writes. */
  datatype ClaimRequest = ClaimRequest(
    id: Id, envelopeDigest: Id, consentId: Id, artifact: Id, signerOperationId: Id, eligible: bool)

  datatype ClaimReply = ClaimReply(disposition: Disposition, operation: Operation)

  /** What an artifact presented for an attempt proves, and the customer's signature when only that is there. */
  function Inspected(lib: Library, a: Attempt, artifact: Id): (Validation, Option<Id>) {
    match lib.carriedMessage(artifact, a.envelope, a.blockhash)
    case None => (InvalidArtifact, None)
    case Some(message) =>
      match lib.inspect(artifact, message, a.envelope.user, a.envelope.sponsor.publicKey)
      case Unreadable => (Rejected, None)
      case FullySigned(_, _) => (SponsorResultPresent, None)
      case CustomerOnly(signature) => (CustomerVerified, Some(signature))
      case Unsigned => (InvalidArtifact, None)
  }

  function CarriedMessage(lib: Library, a: Attempt, artifact: Id): Id {
    match lib.carriedMessage(artifact, a.envelope, a.blockhash)
    case Some(message) => message
    case None => 0
  }

  function TupleFor(lib: Library, a: Attempt, r: ClaimRequest, signature: Id): Tuple {
    Tuple(a.envelope.attempt, a.envelope.sponsor, CarriedMessage(lib, a, r.artifact), a.envelope.user, signature,
          r.envelopeDigest, r.consentId, a.envelope.runtime, a.exposureId)
  }

  function Requested(e: Envelope): Charge { Charge(e.maxBase, e.maxPriority, e.maxRent, 1) }

  function BudgetRefusal(db: Db, e: Envelope): Option<Refusal> {
    var b := db.budgets;
    if e.sponsor !in b.bySponsor || b.bySponsor[e.sponsor] !in b.heads || !b.heads[b.bySponsor[e.sponsor]].active then
      Some(BudgetDisabled)
    else if b.heads[b.bySponsor[e.sponsor]].current !in b.versions then Some(BudgetDisabled)
    else
      var family := b.bySponsor[e.sponsor];
      if Within(Add(FamilyCharge(db, family), Requested(e)), b.versions[b.heads[family].current].limits) then None
      else Some(BudgetExhausted)
  }

  function NewOperation(lib: Library, db: Db, key: Key, a: Attempt, r: ClaimRequest, tuple: Tuple): Operation
    requires BudgetRefusal(db, a.envelope).None?
  {
    var b := db.budgets;
    var current := b.heads[b.bySponsor[a.envelope.sponsor]].current;
    Operation(r.id, key, tuple, lib.tupleDigest(tuple), current, b.versions[current].version, a.exposureId,
              Requested(a.envelope), r.signerOperationId, r.artifact, NotContacted, Reserved, None, None, None, 0)
  }

  function InsertOperation(s: Operations, o: Operation): Operations {
    Operations(s.order + [o.id], s.rows[o.id := o], s.byGeneration[o.key := o.id], s.signerIds + {o.signerOperationId})
  }

  function Claim(lib: Library, db: Db, r: ClaimRequest): (Db, Result<ClaimReply, Refusal>) {
    var s := db.attempts;
    if r.envelopeDigest !in s.byDigest || s.byDigest[r.envelopeDigest] !in s.rows then (db, Err(UnknownEnvelope))
    else
      var key := s.byDigest[r.envelopeDigest];
      var a := s.rows[key];
      var signature := Inspected(lib, a, r.artifact).1;
      if signature.None? then (db, Err(NotCustomerOnly))
      else if key.intent !in s.heads || s.heads[key.intent].current != key.generation || a.state.Cancelled? then
        (db, Err(StaleGeneration))
      else if !TupleAllowed(TupleFor(lib, a, r, signature.value)) then (db, Err(InvalidTuple))
      else ClaimTuple(lib, db, r, key, a, TupleFor(lib, a, r, signature.value))
  }

  /** The claim once its tuple is known: answer with the one matching row, or commit a new one. */
  function ClaimTuple(lib: Library, db: Db, r: ClaimRequest, key: Key, a: Attempt, tuple: Tuple)
    : (Db, Result<ClaimReply, Refusal>)
  {
    var o := db.operations;
    var hash := lib.tupleDigest(tuple);
    if r.id in o.rows || key in o.byGeneration then
      var found := if r.id in o.rows then r.id else o.byGeneration[key];
      if found !in o.rows || (key in o.byGeneration && o.byGeneration[key] != found)
         || o.rows[found].tupleDigest != hash || !a.state.FinalizationCommitted?
         || a.finalizationId != Some(found) then
        (db, Err(TupleConflict))
      else (db, Ok(ClaimReply(if found == r.id then Replay else Converged, o.rows[found])))
    else if CommitFence(FenceOf(a), tuple, r.id).None? then (db, Err(FenceRefused))
    else if !r.eligible then (db, Err(NotEligible))
    else if BudgetRefusal(db, a.envelope).Some? then (db, Err(BudgetRefusal(db, a.envelope).value))
    else if r.signerOperationId in o.signerIds then (db, Err(UniqueViolation))
    else
      var row := NewOperation(lib, db, key, a, r, tuple);
      (db.(operations := InsertOperation(o, row),
           attempts := SetAttempt(db.attempts, key, Committed(a, r.id))), Ok(ClaimReply(Created, row)))
  }

  function Committed(a: Attempt, id: Id): Attempt { a.(state := FinalizationCommitted, finalizationId := Some(id)) }

  /** What the claim had classified its artifact as when it failed. */
  function ValidationOf(lib: Library, db: Db, r: ClaimRequest): Validation {
    if r.envelopeDigest in db.attempts.byDigest && db.attempts.byDigest[r.envelopeDigest] in db.attempts.rows
    then Inspected(lib, db.attempts.rows[db.attempts.byDigest[r.envelopeDigest]], r.artifact).0
    else Rejected
  }

  /** The separate transaction that keeps the evidence of a rejected claim. */
  function RecordCallback(db: Db, envelopeDigest: Id, validation: Validation): Db {
    if envelopeDigest !in db.attempts.byDigest then db
    else
      var key, v := db.attempts.byDigest[envelopeDigest], db.evidence;
      var contradicts := validation.Rejected? || validation.SponsorResultPresent?;
      db.(evidence := v.(
            callbacks := v.callbacks + {Callback(key, validation)},
            incidents := if contradicts && key in db.operations.byGeneration
                         then v.incidents + {db.operations.byGeneration[key]} else v.incidents))
  }

  // ---- the signer ----------------------------------------------------------------------------------------

  /**
   What a transaction comes to: it fails, answers from the stored row, or issues a write of the row and of the
   ledgers, which the database then judges.
   */
  datatype Proposal = Fails(error: Refusal) | Answers(operation: Operation) | Writes(row: Operation, evidence: Evidence)

  /** A write of a row always moves its version on. */
  function Update(o: Operation, v: Evidence): Proposal { Writes(o.(version := o.version + 1), v) }

  function Written(db: Db, row: Operation, v: Evidence): Db {
    db.(operations := db.operations.(rows := db.operations.rows[row.id := row]), evidence := v)
  }

  /** The freeze guard: while an incident is on record no written row may be contacted, expired, refused or consumed. */
  predicate FreezeRefuses(db: Db, row: Operation) {
    && row.id in db.evidence.incidents
    && (row.signerState.ContactCommitted? || row.signerState.ExpiredNeverContacted? || row.signerState.SignerRefused?
        || row.exposureState.Consumed?)
  }

  function Judged(db: Db, p: Proposal): (Db, Result<Operation, Refusal>) {
    match p
    case Fails(e) => (db, Err(e))
    case Answers(o) => (db, Ok(o))
    case Writes(row, v) => if FreezeRefuses(db, row) then (db, Err(Frozen)) else (Written(db, row, v), Ok(row))
  }

  predicate HoldsFence(db: Db, o: Operation) {
    && o.key in db.attempts.rows && db.attempts.rows[o.key].state.FinalizationCommitted?
    && db.attempts.rows[o.key].finalizationId == Some(o.id)
    && o.key.intent in db.attempts.heads && db.attempts.heads[o.key.intent].current == o.key.generation
  }

  predicate Contradicted(db: Db, o: Operation) {
    || o.id in db.evidence.contacts
    || (exists k :: k in db.evidence.effects && k.finalizationId == o.id)
    || Callback(o.key, Rejected) in db.evidence.callbacks
    || Callback(o.key, SponsorResultPresent) in db.evidence.callbacks
  }

  function When(holds: bool, reason: Reason): seq<Reason> { if holds then [reason] else [] }

  function Ended(v: Validity, now: nat, revoked: Reason, expired: Reason): seq<Reason> {
    When(v.revoked, revoked) + When(v.expiresAt <= now, expired)
  }

  function RegistryReasons(a: Authority): seq<Reason> {
    When(a.networkRevoked, NetworkRevoked) + When(a.assetRevoked, AssetRevoked)
  }

  function IntentReasons(a: Authority): seq<Reason> {
    When(a.intentExpiresAt <= a.now, IntentExpired) + When(!a.accountActive, AccountInactive)
  }

  function SessionReasons(a: Authority): seq<Reason> {
    if a.session.None? then [] else Ended(a.session.value.validity, a.now, SessionRevoked, SessionExpired)
  }

  /** Everything that has expired or was revoked, in the order it is looked at. A missing session is no reason. */
  function Reasons(a: Authority): seq<Reason> {
    RegistryReasons(a) + IntentReasons(a) + Ended(a.consent, a.now, ConsentRevoked, ConsentExpired)
    + Ended(a.runtime, a.now, RuntimeRevoked, RuntimeExpired) + SessionReasons(a)
  }

  /** First contact needs live authority and a session of the principal that is no younger than its authentication. */
  predicate MayContact(a: Authority) {
    && a.qualified && Reasons(a) == [] && a.session.Some?
    && a.session.value.createdAt <= a.now && a.session.value.owned && a.authenticatedAt >= a.session.value.createdAt
  }

  function ContactProposal(db: Db, id: Id, a: Authority): Proposal {
    if id !in db.operations.rows then Fails(UnknownFinalization)
    else
      var o := db.operations.rows[id];
      if !o.signerState.NotContacted? then Answers(o)
      else if !HoldsFence(db, o) then Fails(SignerFenceMismatch)
      else if !MayContact(a) then Fails(InvalidatedAuthority)
      else if Contradicted(db, o) then Fails(ContradictoryEvidence)
      else
        var contact := Contact(o.signerOperationId, o.tupleDigest);
        Update(o.(signerState := ContactCommitted, exposureState := Uncertain),
               db.evidence.(contacts := db.evidence.contacts[id := contact]))
  }

  /** The transaction of `recover`: answers whether this call, and no other, may contact the signer. */
  function CommitContact(db: Db, id: Id, a: Authority): (Db, Result<bool, Refusal>) {
    var p := ContactProposal(db, id, a);
    var (next, reply) := Judged(db, p);
    (next, if reply.Err? then Err(reply.error) else Ok(p.Writes?))
  }

  function UnknownProposal(db: Db, id: Id): Proposal {
    if id !in db.operations.rows then Fails(UnknownFinalization)
    else
      var o := db.operations.rows[id];
      if o.signerState.SignerRefused? || o.signerState.ResultAvailable? then Answers(o)
      else if !o.signerState.ContactCommitted? && !o.signerState.ResultUnknown? then Fails(NoContactAuthority)
      else Update(o.(signerState := ResultUnknown, exposureState := Uncertain), db.evidence)
  }

  function RecordUnknown(db: Db, id: Id): (Db, Result<Operation, Refusal>) { Judged(db, UnknownProposal(db, id)) }

  datatype Verdict = Unknown | RefusedBy(reference: Id) | SignedBy(artifact: Id)

  datatype SignerResponse = SignerResponse(
    signerOperationId: Id, tupleDigest: Id, sponsorKeyVersion: Id, network: Id, verdict: Verdict)

  predicate Binds(response: SignerResponse, o: Operation) {
    && response.signerOperationId == o.signerOperationId && response.tupleDigest == o.tupleDigest
    && response.sponsorKeyVersion == o.tuple.sponsor.keyVersion && response.network == o.tuple.sponsor.network
  }

  function AcceptProposal(lib: Library, db: Db, id: Id, response: SignerResponse): Proposal {
    if id !in db.operations.rows then Fails(UnknownFinalization)
    else
      var o := db.operations.rows[id];
      if !Binds(response, o) || o.signerState.NotContacted? || o.signerState.ExpiredNeverContacted? then
        Fails(SignerConflict)
      else
        match response.verdict
        case Unknown =>
          if o.signerState.ResultAvailable? || o.signerState.SignerRefused? then Answers(o)
          else Update(o.(signerState := ResultUnknown), db.evidence)
        case RefusedBy(reference) =>
          if lib.validReference(reference) then RefusalProposal(db, o, reference) else Fails(SignerConflict)
        case SignedBy(artifact) =>
          if lib.validArtifact(artifact) then SignatureProposal(lib, db, o, artifact) else Fails(SignerConflict)
  }

  function RefusalProposal(db: Db, o: Operation, reference: Id): Proposal {
    if o.signerState.SignerRefused? then if o.refusal == Some(reference) then Answers(o) else Fails(SignerConflict)
    else if o.signerState.ResultAvailable? then Fails(SignerConflict)
    else Update(o.(signerState := SignerRefused, refusal := Some(reference), exposureState := Released), db.evidence)
  }

  function SignatureProposal(lib: Library, db: Db, o: Operation, artifact: Id): Proposal {
    match lib.inspect(artifact, o.tuple.messageDigest, o.tuple.user, o.tuple.sponsor.publicKey)
    case FullySigned(customer, transactionId) =>
      var signed := Signed(artifact, transactionId);
      if customer != o.tuple.customerSignature then Fails(SignerConflict)
      else if o.signerState.ResultAvailable? then if o.signed == Some(signed) then Answers(o) else Fails(SignerConflict)
      else if o.signerState.SignerRefused? then Fails(SignerConflict)
      else Update(o.(signerState := ResultAvailable, signed := Some(signed)), db.evidence)
    case _ => Fails(SignerConflict)
  }

  function Accept(lib: Library, db: Db, id: Id, response: SignerResponse): (Db, Result<Operation, Refusal>) {
    Judged(db, AcceptProposal(lib, db, id, response))
  }

  /** A signer report that contradicts the stored operation, or any other recorded incident, freezes it. */
  function RecordIncident(db: Db, id: Id): Db {
    if id !in db.operations.rows then db
    else db.(evidence := db.evidence.(incidents := db.evidence.incidents + {id}))
  }

  function ExpiryProposal(db: Db, id: Id, a: Authority): Proposal {
    if id !in db.operations.rows then Fails(UnknownFinalization)
    else
      var o := db.operations.rows[id];
      if o.signerState.ExpiredNeverContacted? then Answers(o)
      else if !o.signerState.NotContacted? then Fails(CannotReclaim)
      else if !HoldsFence(db, o) then Fails(SignerFenceMismatch)
      else if Contradicted(db, o) then Fails(ContradictoryEvidence)
      else if Reasons(a) == [] then Fails(NotInvalidated)
      else
        var expiry := Expiry(o.key.generation, o.exposureId, o.requested, Reasons(a));
        Update(o.(signerState := ExpiredNeverContacted, exposureState := Released),
               db.evidence.(expiries := db.evidence.expiries[id := expiry]))
  }

  /** Reclaims the exposure of an operation whose authority ended before anyone contacted the signer. */
  function Expire(db: Db, id: Id, a: Authority): (Db, Result<Operation, Refusal>) {
    Judged(db, ExpiryProposal(db, id, a))
  }

  // ---- the observer ----------------------------------------------------------------------------------------

  function AddEffect(db: Db, k: EffectKey, effect: Effect): Db {
    db.(evidence := db.evidence.(effects := db.evidence.effects[k := effect]))
  }

  /** Evidence that the operation may have taken effect; it needs no result, but nothing may have expired. */
  function ObservePossible(db: Db, id: Id, reference: Id, network: Id, transaction: Option<Id>)
    : (Db, Result<Effect, Refusal>)
  {
    if id !in db.operations.rows then (db, Err(UnknownFinalization))
    else
      var o, k := db.operations.rows[id], EffectKey(id, reference);
      if o.signerState.ExpiredNeverContacted? || network != o.tuple.sponsor.network then (db, Err(EffectConflict))
      else if k in db.evidence.effects then (db, Err(UniqueViolation))
      else (AddEffect(db, k, PossibleEffect(network, transaction)), Ok(PossibleEffect(network, transaction)))
  }

  /** The first transaction of settling: immutable evidence of what the finalized transaction consumed. */
  function Observe(db: Db, id: Id, seen: Observation): (Db, Result<Effect, Refusal>) {
    if id !in db.operations.rows then (db, Err(UnknownFinalization))
    else
      var o, k, c := db.operations.rows[id], EffectKey(id, seen.accounting.reference), seen.accounting;
      if !o.signerState.ResultAvailable? || o.signed.None? || seen.network != o.tuple.sponsor.network
         || seen.transactionId != o.signed.value.transactionId || c.base > o.requested.base
         || c.priority > o.requested.priority || c.rent > o.requested.rent then
        (db, Err(EffectConflict))
      else if k in db.evidence.effects then
        if db.evidence.effects[k] == FinalizedAccounting(seen) then (db, Ok(FinalizedAccounting(seen)))
        else (db, Err(EffectConflict))
      else (AddEffect(db, k, FinalizedAccounting(seen)), Ok(FinalizedAccounting(seen)))
  }

  function AccountingProposal(db: Db, id: Id, reference: Id): Proposal {
    if id !in db.operations.rows then Fails(UnknownFinalization)
    else
      var o, k := db.operations.rows[id], EffectKey(id, reference);
      if k !in db.evidence.effects || !db.evidence.effects[k].FinalizedAccounting?
         || !o.signerState.ResultAvailable? || o.signed.None?
         || db.evidence.effects[k].observation.transactionId != o.signed.value.transactionId
         || db.evidence.effects[k].observation.network != o.tuple.sponsor.network then
        Fails(EffectConflict)
      else
        var c := db.evidence.effects[k].observation.accounting;
        if o.exposureState.Consumed? then if o.consumed == Some(c) then Answers(o) else Fails(AccountingConflict)
        else Update(o.(exposureState := Consumed, consumed := Some(c)), db.evidence)
  }

  /** The second transaction of settling: the evidence becomes the operation's realised charge. */
  function ApplyAccounting(db: Db, id: Id, reference: Id): (Db, Result<Operation, Refusal>) {
    Judged(db, AccountingProposal(db, id, reference))
  }

  // ---- one call of any kind ----------------------------------------------------------------------------------

  datatype Call =
    | DoRegister(registration: Registration)
    | DoCancel(key: Key, fenceToken: Id, principal: Id)
    | DoClaim(claim: ClaimRequest)
    | DoRecordCallback(envelopeDigest: Id, validation: Validation)
    | DoCommitContact(id: Id, authority: Authority)
    | DoRecordUnknown(id: Id)
    | DoAccept(id: Id, response: SignerResponse)
    | DoRecordIncident(id: Id)
    | DoExpire(id: Id, authority: Authority)
    | DoObservePossible(id: Id, reference: Id, network: Id, transaction: Option<Id>)
    | DoObserve(id: Id, observation: Observation)
    | DoApplyAccounting(id: Id, reference: Id)
    | DoInstallBudget(sponsor: Sponsor, request: BudgetRequest, registered: Option<Registered>, now: nat)
    | DoSetBudgetStatus(family: Id, expected: nat, active: bool)
    | DoReviseBudget(family: Id, expected: nat, request: BudgetRequest)

  /** The one finalization row a call may write. */
  function Target(c: Call): Option<Id> {
    match c
    case DoCommitContact(id, _) => Some(id)
    case DoRecordUnknown(id) => Some(id)
    case DoAccept(id, _) => Some(id)
    case DoExpire(id, _) => Some(id)
    case DoApplyAccounting(id, _) => Some(id)
    case _ => None
  }

  /** What a call that may write a finalization row puts to the database. */
  function ProposalOf(lib: Library, db: Db, c: Call): Proposal
    requires Target(c).Some?
  {
    match c
    case DoCommitContact(id, a) => ContactProposal(db, id, a)
    case DoRecordUnknown(id) => UnknownProposal(db, id)
    case DoAccept(id, response) => AcceptProposal(lib, db, id, response)
    case DoExpire(id, a) => ExpiryProposal(db, id, a)
    case DoApplyAccounting(id, reference) => AccountingProposal(db, id, reference)
  }

  function Apply(lib: Library, db: Db, call: Call): Db {
    match call
    case DoRegister(r) => Register(lib, db, r).0
    case DoCancel(key, token, principal) => Cancel(db, key, token, principal).0
    case DoClaim(r) => Claim(lib, db, r).0
    case DoRecordCallback(digest, validation) => RecordCallback(db, digest, validation)
    case DoCommitContact(id, a) => CommitContact(db, id, a).0
    case DoRecordUnknown(id) => RecordUnknown(db, id).0
    case DoAccept(id, response) => Accept(lib, db, id, response).0
    case DoRecordIncident(id) => RecordIncident(db, id)
    case DoExpire(id, a) => Expire(db, id, a).0
    case DoObservePossible(id, reference, n, transaction) => ObservePossible(db, id, reference, n, transaction).0
    case DoObserve(id, seen) => Observe(db, id, seen).0
    case DoApplyAccounting(id, reference) => ApplyAccounting(db, id, reference).0
    case DoInstallBudget(sponsor, r, n, now) => InstallBudget(db, sponsor, r, n, now).0
    case DoSetBudgetStatus(family, expected, active) => SetBudgetStatus(db, family, expected, active).0
    case DoReviseBudget(family, expected, r) => ReviseBudget(db, family, expected, r).0
  }

  function Run(lib: Library, calls: seq<Call>): Db {
    if calls == [] then EMPTY else Apply(lib, Run(lib, calls[..|calls| - 1]), calls[|calls| - 1])
  }
}
