/**
 When registration, the signer's transactions, the observer's and the administration answer what, for every input and
 in every valid state, in terms of the stored rows; and what each leaves of them.
 */
module SponsorReplies {
  import opened Wrappers
  import opened SponsorTables
  import opened SponsorClaim
  import opened SponsorSteps
  import opened SponsorFences
  import opened SponsorLedger
  import opened SponsorRuns
  import SponsorBudgets
  import opened SponsorAuthority

  // ---- registration --------------------------------------------------------------------------------------

  /** The intent's current attempt is this very one: same binding, message and blockhash. */
  predicate IsRegistered(lib: Library, s: Attempts, r: Registration) {
    && r.envelope.attempt.intentId in s.heads
    && s.heads[r.envelope.attempt.intentId].principal == r.envelope.principal
    && var k := Key(r.envelope.attempt.intentId, s.heads[r.envelope.attempt.intentId].current);
       && k in s.rows && s.rows[k].digest == lib.bindingDigest(r.envelope)
       && s.rows[k].messageDigest == lib.messageDigest(r.envelope, r.blockhash) && s.rows[k].blockhash == r.blockhash
  }

  /** The first generation of an intent nobody has registered. */
  predicate Begins(s: Attempts, r: Registration) {
    r.envelope.attempt.intentId !in s.heads && r.envelope.attempt.generation == 1
  }

  /** The generation after the owner's cancelled current one, of no earlier version and with tokens of its own. */
  predicate Supersedes(lib: Library, s: Attempts, r: Registration) {
    && r.envelope.attempt.intentId in s.heads
    && s.heads[r.envelope.attempt.intentId].principal == r.envelope.principal
    && var k := Key(r.envelope.attempt.intentId, s.heads[r.envelope.attempt.intentId].current);
       && k in s.rows && s.rows[k].state.Cancelled? && s.rows[k].digest != lib.bindingDigest(r.envelope)
       && r.envelope.attempt.generation == k.generation + 1
       && s.rows[k].envelope.attempt.intentId == r.envelope.attempt.intentId
       && r.envelope.attempt.intentVersion >= s.rows[k].envelope.attempt.intentVersion
       && r.envelope.attempt.attemptId != s.rows[k].envelope.attempt.attemptId
       && r.envelope.attempt.fenceToken != s.rows[k].envelope.attempt.fenceToken
  }

  /** No index holds any of the attempt's ids. */
  predicate IsNew(lib: Library, s: Attempts, r: Registration) {
    && KeyOf(r.envelope) !in s.rows && lib.bindingDigest(r.envelope) !in s.byDigest
    && r.envelope.attempt.attemptId !in s.attemptIds && r.envelope.attempt.fenceToken !in s.fenceTokens
    && r.exposureId !in s.exposureIds
  }

  /** A registration is accepted iff it repeats the current attempt, or is eligible, new, and first or a replacement. */
  lemma RegisterAnswers(lib: Library, db: Db, r: Registration)
    requires Valid(lib, db)
    ensures var (next, reply) := Register(lib, db, r);
            && (reply.Ok? && next == db <==> IsRegistered(lib, db.attempts, r))
            && (next != db <==>
                  && (Begins(db.attempts, r) || Supersedes(lib, db.attempts, r))
                  && r.eligible && IsNew(lib, db.attempts, r))
            && (reply.Ok? ==> reply.value == lib.bindingDigest(r.envelope))
            && (next != db ==> reply.Ok? && Registers(lib, db, r, next))
  {
    var i := r.envelope.attempt.intentId;
    assert HeadOk(db.attempts, i);
    if i in db.attempts.heads { assert AttemptOk(db.attempts, Key(i, db.attempts.heads[i].current)); }
    else { assert AttemptOk(db.attempts, KeyOf(r.envelope)); }
  }

  /** The one attempt is added open and becomes current; every index gets its id and nothing else changes. */
  ghost predicate Registers(lib: Library, db: Db, r: Registration, next: Db) {
    var s, t, k := db.attempts, next.attempts, KeyOf(r.envelope);
    && next == db.(attempts := t) && k in t.rows
    && t.heads == s.heads[k.intent := Head(r.envelope.principal, k.generation)]
    && t.rows == s.rows[k := t.rows[k]] && t.rows[k].state.Open? && t.rows[k].finalizationId.None?
    && t.rows[k].envelope == r.envelope && t.rows[k].digest == lib.bindingDigest(r.envelope)
    && t.rows[k].messageDigest == lib.messageDigest(r.envelope, r.blockhash) && t.rows[k].blockhash == r.blockhash
    && t.rows[k].exposureId == r.exposureId && t.byDigest == s.byDigest[lib.bindingDigest(r.envelope) := k]
    && t.attemptIds == s.attemptIds + {r.envelope.attempt.attemptId}
    && t.fenceTokens == s.fenceTokens + {r.envelope.attempt.fenceToken}
    && t.exposureIds == s.exposureIds + {r.exposureId}
  }

  // ---- signer contact ------------------------------------------------------------------------------------

  predicate Live(v: Validity, now: nat) { !v.revoked && now < v.expiresAt }

  /** Nothing the operation rests on has expired or was revoked, and the owner's session is fresh. */
  predicate Authorises(a: Authority) {
    && a.qualified && !a.networkRevoked && !a.assetRevoked && a.now < a.intentExpiresAt && a.accountActive
    && Live(a.consent, a.now) && Live(a.runtime, a.now) && a.session.Some? && Live(a.session.value.validity, a.now)
    && a.session.value.owned && a.session.value.createdAt <= a.now && a.session.value.createdAt <= a.authenticatedAt
  }

  /** Some of it has ended; a missing session is not counted. */
  predicate Lapsed(a: Authority) {
    || a.networkRevoked || a.assetRevoked || a.intentExpiresAt <= a.now || !a.accountActive
    || !Live(a.consent, a.now) || !Live(a.runtime, a.now)
    || (a.session.Some? && !Live(a.session.value.validity, a.now))
  }

  lemma LapsedIff(a: Authority)
    ensures Lapsed(a) <==> Reasons(a) != []
    ensures Authorises(a) <==> MayContact(a)
  {
    NoReasonIffNoneHolds(a);
    assert Holds(a, NetworkRevoked) == a.networkRevoked && Holds(a, AssetRevoked) == a.assetRevoked;
    assert Holds(a, IntentExpired) == (a.intentExpiresAt <= a.now) && Holds(a, AccountInactive) == !a.accountActive;
    assert Live(a.consent, a.now) == !(Holds(a, ConsentRevoked) || Holds(a, ConsentExpired));
    assert Live(a.runtime, a.now) == !(Holds(a, RuntimeRevoked) || Holds(a, RuntimeExpired));
    assert a.session.Some? ==>
             Live(a.session.value.validity, a.now) == !(Holds(a, SessionRevoked) || Holds(a, SessionExpired));
  }

  /** Evidence of an effect, or of an artifact that was rejected or already signed, speaks against the operation. */
  ghost predicate SpokenAgainst(db: Db, o: Operation) {
    || HasEffect(db.evidence, o.id) || Callback(o.key, Rejected) in db.evidence.callbacks
    || Callback(o.key, SponsorResultPresent) in db.evidence.callbacks
  }

  lemma ContradictedIff(lib: Library, db: Db, id: Id)
    requires Valid(lib, db) && id in db.operations.rows && db.operations.rows[id].signerState.NotContacted?
    ensures Contradicted(db, db.operations.rows[id]) <==> SpokenAgainst(db, db.operations.rows[id])
    ensures HoldsFence(db, db.operations.rows[id])
  {
    assert LedgerOk(db.operations, db.evidence, id) && RowOk(lib, db.attempts, db.operations, id);
    FinalizedIsCurrent(lib, db, id);
  }

  /** Contact is granted iff nobody has had it, authority is live, nothing speaks against it and nothing froze it. */
  lemma ContactGrantedIff(lib: Library, db: Db, id: Id, a: Authority)
    requires Valid(lib, db)
    ensures var (next, reply) := CommitContact(db, id, a);
            && (reply == Ok(true) <==>
                  && id in db.operations.rows && db.operations.rows[id].signerState.NotContacted? && Authorises(a)
                  && !SpokenAgainst(db, db.operations.rows[id]) && id !in db.evidence.incidents)
            && (reply == Ok(false) <==> id in db.operations.rows && !db.operations.rows[id].signerState.NotContacted?)
            && (next != db <==> reply == Ok(true))
            && (next != db ==> id in db.operations.rows && id in next.operations.rows
                               && Contacts(db.operations.rows[id], next.operations.rows[id])
                               && next == ContactLedger(db, next.operations.rows[id]))
  {
    LapsedIff(a);
    if id in db.operations.rows {
      assert RowOk(lib, db.attempts, db.operations, id);
      if db.operations.rows[id].signerState.NotContacted? { ContradictedIff(lib, db, id); }
    }
  }

  predicate Contacts(o: Operation, p: Operation) {
    p == o.(signerState := ContactCommitted, exposureState := Uncertain, version := o.version + 1)
  }

  /** The row is replaced, and the contact ledger binds the signer's operation to the tuple. */
  function ContactLedger(db: Db, p: Operation): Db {
    db.(operations := db.operations.(rows := db.operations.rows[p.id := p]),
        evidence := db.evidence.(
          contacts := db.evidence.contacts[p.id := Contact(p.signerOperationId, p.tupleDigest)]))
  }

  // ---- expiry --------------------------------------------------------------------------------------------

  predicate Expires(o: Operation, p: Operation) {
    p == o.(signerState := ExpiredNeverContacted, exposureState := Released, version := o.version + 1)
  }

  /** Exposure is reclaimed iff nobody contacted the signer, authority has lapsed, and nothing speaks against it. */
  lemma ExpiredIff(lib: Library, db: Db, id: Id, a: Authority)
    requires Valid(lib, db)
    ensures var (next, reply) := Expire(db, id, a);
            && (next != db <==>
                  && id in db.operations.rows && db.operations.rows[id].signerState.NotContacted? && Lapsed(a)
                  && !SpokenAgainst(db, db.operations.rows[id]) && id !in db.evidence.incidents)
            && (reply.Ok? && next == db <==>
                  id in db.operations.rows && db.operations.rows[id].signerState.ExpiredNeverContacted?)
            && (reply.Ok? ==> id in next.operations.rows && reply.value == next.operations.rows[id])
            && (next != db ==> reply.Ok? && Reclaims(db, id, next))
  {
    LapsedIff(a);
    if id in db.operations.rows {
      assert RowOk(lib, db.attempts, db.operations, id);
      if db.operations.rows[id].signerState.NotContacted? { ContradictedIff(lib, db, id); }
    }
  }

  /** Only the row and its entry in the expiry ledger changed. */
  ghost predicate Reclaims(db: Db, id: Id, next: Db) {
    && id in db.operations.rows && id in next.operations.rows && id in next.evidence.expiries
    && Expires(db.operations.rows[id], next.operations.rows[id])
    && Proves(next.evidence.expiries[id], db.operations.rows[id])
    && next == db.(operations := db.operations.(rows := db.operations.rows[id := next.operations.rows[id]]),
                   evidence := db.evidence.(expiries := db.evidence.expiries[id := next.evidence.expiries[id]]))
  }

  // ---- the signer's answer -------------------------------------------------------------------------------

  predicate Identifies(response: SignerResponse, o: Operation) {
    && response.signerOperationId == o.signerOperationId && response.tupleDigest == o.tupleDigest
    && response.sponsorKeyVersion == o.tuple.sponsor.keyVersion && response.network == o.tuple.sponsor.network
  }

  predicate Awaits(o: Operation) { o.signerState.ContactCommitted? || o.signerState.ResultUnknown? }

  /** The artifact is the claimed message, fully signed, with the customer's own signature. */
  predicate Completes(lib: Library, o: Operation, artifact: Id, transactionId: Id) {
    && lib.validArtifact(artifact)
    && lib.inspect(artifact, o.tuple.messageDigest, o.tuple.user, o.tuple.sponsor.publicKey)
       == FullySigned(o.tuple.customerSignature, transactionId)
  }

  /** What a row contacted without a result becomes on hearing the verdict. */
  predicate Hears(lib: Library, o: Operation, v: Verdict, p: Operation) {
    p.version == o.version + 1 &&
    match v
    case Unknown => p == o.(signerState := ResultUnknown, version := p.version)
    case RefusedBy(reference) =>
      lib.validReference(reference)
      && p == o.(signerState := SignerRefused, refusal := Some(reference), exposureState := Released,
                 version := p.version)
    case SignedBy(artifact) =>
      p.signed.Some? && Completes(lib, o, artifact, p.signed.value.transactionId)
      && p == o.(signerState := ResultAvailable, signed := Some(Signed(artifact, p.signed.value.transactionId)),
                 version := p.version)
  }

  /**
   While an operation waits for its result, an answer that identifies it is accepted iff it is unknown, a refusal that
   nothing froze, or the completed artifact; the row then becomes just that and nothing else changes.
   */
  lemma AnswerAcceptedIff(lib: Library, db: Db, id: Id, response: SignerResponse)
    requires Valid(lib, db) && id in db.operations.rows && Awaits(db.operations.rows[id])
    ensures var (next, reply) := Accept(lib, db, id, response);
            && (reply.Ok? <==> Identifies(response, db.operations.rows[id])
                               && (exists p :: Hears(lib, db.operations.rows[id], response.verdict, p))
                               && (response.verdict.RefusedBy? ==> id !in db.evidence.incidents))
            && (reply.Ok? ==>
                  && Hears(lib, db.operations.rows[id], response.verdict, reply.value)
                  && next == db.(operations := db.operations.(rows := db.operations.rows[id := reply.value])))
            && (reply.Err? ==> next == db && (reply.error == Frozen || reply.error == SignerConflict))
            && (reply == Err(Frozen) ==> response.verdict.RefusedBy?)
  {
    assert RowOk(lib, db.attempts, db.operations, id) && LedgerOk(db.operations, db.evidence, id);
    var o := db.operations.rows[id];
    match response.verdict
    case Unknown => assert Hears(lib, o, Unknown, o.(signerState := ResultUnknown, version := o.version + 1));
    case RefusedBy(reference) => if lib.validReference(reference) { RefusalHeard(lib, db, id, reference); }
    case SignedBy(artifact) => if lib.validArtifact(artifact) { SignatureHeard(lib, db, id, artifact); }
  }

  lemma RefusalHeard(lib: Library, db: Db, id: Id, reference: Id)
    requires id in db.operations.rows && Awaits(db.operations.rows[id]) && lib.validReference(reference)
    ensures exists p :: Hears(lib, db.operations.rows[id], RefusedBy(reference), p)
                        && RefusalProposal(db, db.operations.rows[id], reference) == Writes(p, db.evidence)
  {
    var o := db.operations.rows[id];
    var p := o.(signerState := SignerRefused, refusal := Some(reference), exposureState := Released,
                version := o.version + 1);
    assert Hears(lib, o, RefusedBy(reference), p);
  }

  lemma SignatureHeard(lib: Library, db: Db, id: Id, artifact: Id)
    requires id in db.operations.rows && Awaits(db.operations.rows[id]) && lib.validArtifact(artifact)
    ensures var o := db.operations.rows[id];
            (exists p :: Hears(lib, o, SignedBy(artifact), p)) <==> SignatureProposal(lib, db, o, artifact).Writes?
    ensures var o := db.operations.rows[id];
            SignatureProposal(lib, db, o, artifact).Writes? ==>
              Hears(lib, o, SignedBy(artifact), SignatureProposal(lib, db, o, artifact).row)
  {
    var o := db.operations.rows[id];
    if SignatureProposal(lib, db, o, artifact).Writes? {
      assert Hears(lib, o, SignedBy(artifact), SignatureProposal(lib, db, o, artifact).row);
    }
  }

  /** Without contact no answer is accepted, and an unknown result is recorded iff there was contact. */
  lemma UnknownRecordedIff(lib: Library, db: Db, id: Id, response: SignerResponse)
    requires Valid(lib, db) && id in db.operations.rows
    ensures var o := db.operations.rows[id];
            && (RecordUnknown(db, id).1.Ok? <==> Contacted(o.signerState))
            && (!Contacted(o.signerState) ==> Accept(lib, db, id, response) == (db, Err(SignerConflict)))
            && (RecordUnknown(db, id).0 != db <==> Awaits(o))
            && (Awaits(o) ==>
                  var p := o.(signerState := ResultUnknown, exposureState := Uncertain, version := o.version + 1);
                  RecordUnknown(db, id)
                  == (db.(operations := db.operations.(rows := db.operations.rows[id := p])), Ok(p)))
  {
    assert RowOk(lib, db.attempts, db.operations, id);
  }

  // ---- the observer and settlement -----------------------------------------------------------------------

  /** The observation is of the operation's own signed transaction and within what was reserved for it. */
  predicate Observes(seen: Observation, o: Operation) {
    && o.signerState.ResultAvailable? && o.signed.Some? && seen.transactionId == o.signed.value.transactionId
    && seen.network == o.tuple.sponsor.network && Bounded(seen.accounting, o.requested)
  }

  /** Finalized evidence is recorded once per reference, and otherwise only repeated. */
  lemma ObservedIff(lib: Library, db: Db, id: Id, seen: Observation)
    requires Valid(lib, db)
    ensures var k, (next, reply) := EffectKey(id, seen.accounting.reference), Observe(db, id, seen);
            && (reply.Ok? <==> id in db.operations.rows && Observes(seen, db.operations.rows[id])
                               && (k in db.evidence.effects ==> db.evidence.effects[k] == FinalizedAccounting(seen)))
            && (reply.Ok? ==>
                  next == db.(evidence := db.evidence.(effects := db.evidence.effects[k := FinalizedAccounting(seen)])))
            && (reply.Err? ==> next == db)
  {
    if id in db.operations.rows { assert LedgerOk(db.operations, db.evidence, id); }
    var k := EffectKey(id, seen.accounting.reference);
    if k in db.evidence.effects {
      assert db.evidence.effects[k := db.evidence.effects[k]] == db.evidence.effects;
    }
  }

  /** Evidence of a possible effect is recorded once per reference, for anything of the network that has not expired. */
  lemma PossibleObservedIff(db: Db, id: Id, reference: Id, network: Id, transaction: Option<Id>)
    ensures var k, (next, reply) := EffectKey(id, reference), ObservePossible(db, id, reference, network, transaction);
            && (reply.Ok? <==>
                  && id in db.operations.rows && !db.operations.rows[id].signerState.ExpiredNeverContacted?
                  && network == db.operations.rows[id].tuple.sponsor.network && k !in db.evidence.effects)
            && next == (if reply.Ok?
                        then db.(evidence := db.evidence.(
                                   effects := db.evidence.effects[k := PossibleEffect(network, transaction)]))
                        else db)
  {
  }

  /** Accounting is applied iff finalized evidence of the signed transaction is there and nothing froze or settled. */
  lemma SettledIff(lib: Library, db: Db, id: Id, reference: Id)
    requires Valid(lib, db)
    ensures var k, (next, reply) := EffectKey(id, reference), ApplyAccounting(db, id, reference);
            && (next != db <==>
                  && Settles(db, id, k) && !db.operations.rows[id].exposureState.Consumed?
                  && id !in db.evidence.incidents)
            && (reply.Ok? && next == db <==>
                  && Settles(db, id, k)
                  && db.operations.rows[id].consumed == Some(db.evidence.effects[k].observation.accounting))
            && (next != db ==>
                  && reply.Ok? && Settles(db, id, k)
                  && next == db.(operations := db.operations.(rows := db.operations.rows[id := reply.value]))
                  && var o := db.operations.rows[id];
                     reply.value == o.(exposureState := Consumed, version := o.version + 1,
                                       consumed := Some(db.evidence.effects[k].observation.accounting)))
  {
    if id in db.operations.rows {
      assert LedgerOk(db.operations, db.evidence, id) && RowOk(lib, db.attempts, db.operations, id);
    }
  }

  /** There is finalized evidence under the key, and it is of the operation's signed transaction. */
  predicate Settles(db: Db, id: Id, k: EffectKey) {
    && id in db.operations.rows && k in db.evidence.effects && db.evidence.effects[k].FinalizedAccounting?
    && db.operations.rows[id].signerState.ResultAvailable? && db.operations.rows[id].signed.Some?
    && db.evidence.effects[k].observation.transactionId == db.operations.rows[id].signed.value.transactionId
    && db.evidence.effects[k].observation.network == db.operations.rows[id].tuple.sponsor.network
  }

  // ---- rejected claims -----------------------------------------------------------------------------------

  /** The message an artifact carries for an attempt, and what the inspection of its signatures says. */
  predicate Carries(lib: Library, a: Attempt, artifact: Id, message: Id, seen: Inspection) {
    && lib.carriedMessage(artifact, a.envelope, a.blockhash) == Some(message)
    && lib.inspect(artifact, message, a.envelope.user, a.envelope.sponsor.publicKey) == seen
  }

  /** The artifact is the attempt's message with unreadable signatures, or already has the sponsor's. */
  ghost predicate Alarming(lib: Library, a: Attempt, artifact: Id) {
    exists message, seen :: Carries(lib, a, artifact, message, seen) && (seen.Unreadable? || seen.FullySigned?)
  }

  /**
   A rejected claim leaves an incident exactly when its artifact is alarming and its generation already has a
   finalization, which is then frozen; of the tables only that evidence changes.
   */
  lemma RejectionFreezesIff(lib: Library, db: Db, r: ClaimRequest)
    requires Valid(lib, db) && r.envelopeDigest in db.attempts.byDigest
    ensures var key := db.attempts.byDigest[r.envelopeDigest];
            var next := RecordCallback(db, r.envelopeDigest, ValidationOf(lib, db, r));
            && key in db.attempts.rows
            && next.evidence.incidents
               == db.evidence.incidents
                  + (if Alarming(lib, db.attempts.rows[key], r.artifact) && key in db.operations.byGeneration
                     then {db.operations.byGeneration[key]} else {})
            && (Alarming(lib, db.attempts.rows[key], r.artifact) <==>
                  ValidationOf(lib, db, r).Rejected? || ValidationOf(lib, db, r).SponsorResultPresent?)
            && next == db.(evidence := db.evidence.(
                             incidents := next.evidence.incidents,
                             callbacks := db.evidence.callbacks + {Callback(key, ValidationOf(lib, db, r))}))
  {
    assert DigestOk(db.attempts, r.envelopeDigest);
    var a := db.attempts.rows[db.attempts.byDigest[r.envelopeDigest]];
    match lib.carriedMessage(r.artifact, a.envelope, a.blockhash)
    case None =>
    case Some(message) =>
      var seen := lib.inspect(r.artifact, message, a.envelope.user, a.envelope.sponsor.publicKey);
      assert Carries(lib, a, r.artifact, message, seen);
  }

  // ---- administration ------------------------------------------------------------------------------------

  /** A budget is installed iff its limit is positive, its network in effect, and neither id nor sponsor has one. */
  lemma InstalledIff(db: Db, sponsor: Sponsor, r: BudgetRequest, network: Option<Registered>, now: nat)
    requires SponsorBudgets.Charges(db)
    ensures var (next, reply) := InstallBudget(db, sponsor, r, network, now);
            && (reply.Ok? <==>
                  && r.limits.outstanding > 0 && network.Some? && !network.value.revoked
                  && network.value.effectiveAt <= now && r.budgetId !in db.budgets.versions
                  && r.budgetId !in db.budgets.heads
                  && forall f :: f in db.budgets.heads ==> db.budgets.heads[f].sponsor != sponsor)
            && (reply.Ok? ==>
                  && reply.value == 1 && next == db.(budgets := next.budgets)
                  && next.budgets.versions
                     == db.budgets.versions[r.budgetId := BudgetVersion(r.budgetId, 1, sponsor, r.limits)]
                  && next.budgets.heads == db.budgets.heads[r.budgetId := BudgetHead(sponsor, r.budgetId, true, 1)])
            && (reply.Err? ==> next == db)
  {
    assert SponsorBudgets.SponsorOk(db.budgets, sponsor);
    forall f | f in db.budgets.heads && db.budgets.heads[f].sponsor == sponsor ensures sponsor in db.budgets.bySponsor {
      assert SponsorBudgets.FamilyOk(db.budgets, f);
    }
  }

  /** Whoever names the current revision sets the status; the revision moves on iff the status changes. */
  lemma StatusSetIff(db: Db, family: Id, expected: nat, active: bool)
    ensures var (next, reply) := SetBudgetStatus(db, family, expected, active);
            && (reply.Ok? <==> family in db.budgets.heads && db.budgets.heads[family].revision == expected)
            && (reply.Ok? ==>
                  && family in next.budgets.heads && next.budgets.heads[family].active == active
                  && next.budgets.heads[family].revision == reply.value
                  && reply.value == expected + (if db.budgets.heads[family].active == active then 0 else 1)
                  && next.budgets.heads[family].current == db.budgets.heads[family].current
                  && next.budgets.heads[family].sponsor == db.budgets.heads[family].sponsor)
            && next == db.(budgets := db.budgets.(heads := next.budgets.heads))
            && forall f :: f != family ==>
                 (f in next.budgets.heads <==> f in db.budgets.heads)
                 && (f in db.budgets.heads ==> next.budgets.heads[f] == db.budgets.heads[f])
  {
  }

  /** Whoever names the current revision adds the next version, which becomes current; active or not it stays. */
  lemma RevisedIff(db: Db, family: Id, expected: nat, r: BudgetRequest)
    requires SponsorBudgets.Charges(db)
    ensures var (next, reply) := ReviseBudget(db, family, expected, r);
            && (reply.Ok? <==>
                  && r.limits.outstanding > 0 && family in db.budgets.heads
                  && db.budgets.heads[family].revision == expected && r.budgetId !in db.budgets.versions)
            && (reply.Ok? ==> reply.value == expected + 1 && Revises(db, family, r, next))
            && (reply.Err? ==> next == db)
  {
    assert SponsorBudgets.FamilyOk(db.budgets, family);
  }

  ghost predicate Revises(db: Db, family: Id, r: BudgetRequest, next: Db) {
    && family in db.budgets.heads && db.budgets.heads[family].current in db.budgets.versions
    && var head := db.budgets.heads[family];
       next == db.(budgets := db.budgets.(
                 versions := db.budgets.versions[r.budgetId := BudgetVersion(
                               family, db.budgets.versions[head.current].version + 1, head.sponsor, r.limits)],
                 heads := db.budgets.heads[family := BudgetHead(head.sponsor, r.budgetId, head.active,
                                                                head.revision + 1)]))
  }
}
