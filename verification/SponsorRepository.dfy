/**
 The finalization repository and the budget administration over one shared database. Each method is one
 transaction: it works on its own copies of the tables and writes them back only when it commits.
 */
module SponsorRepository {
  import opened Wrappers
  import opened SponsorTables
  import opened SponsorClaim
  import opened SponsorSteps
  import opened SponsorFences
  import opened SponsorLedger
  import opened SponsorBudgets
  import opened SponsorRuns

  class Database {
    var attempts: Attempts
    var operations: Operations
    var evidence: Evidence
    var budgets: Budgets

    constructor ()
      ensures State() == EMPTY
    {
      attempts, operations, evidence, budgets := EMPTY.attempts, EMPTY.operations, EMPTY.evidence, EMPTY.budgets;
    }

    function State(): Db reads this { Db(attempts, operations, evidence, budgets) }

    /** The UPDATE of a finalization row with the ledger entries made beside it, under the freeze guard. */
    method UpdateFinalization(row: Operation, ledgers: Evidence) returns (reply: Result<Operation, Refusal>)
      modifies this
      ensures (State(), reply) == Judged(old(State()), Writes(row, ledgers))
    {
      if row.id in evidence.incidents {
        var s := row.signerState;
        if s.ContactCommitted? || s.ExpiredNeverContacted? || s.SignerRefused? || row.exposureState.Consumed? {
          return Err(Frozen);
        }
      }
      operations := operations.(rows := operations.rows[row.id := row]);
      evidence := ledgers;
      return Ok(row);
    }
  }

  class PostgresFinalizationRepository {
    const lib: Library
    const db: Database

    constructor (lib: Library, db: Database)
      ensures this.lib == lib && this.db == db
    {
      this.lib, this.db := lib, db;
    }

    ghost predicate Sound() reads db { Valid(lib, db.State()) }

    method RegisterAttempt(r: Registration) returns (reply: Result<Id, Refusal>)
      requires Sound()
      modifies db
      ensures Sound() && (db.State(), reply) == Register(lib, old(db.State()), r)
    {
      ApplyValid(lib, db.State(), DoRegister(r));
      var key, candidate := KeyOf(r.envelope), NewAttempt(lib, r);
      assert HeadOk(db.attempts, key.intent);
      var heads := db.attempts.heads;
      if key.intent !in heads { heads := heads[key.intent := Head(r.envelope.principal, key.generation)]; }
      var head := heads[key.intent];
      if head.principal != r.envelope.principal { return Err(PrincipalConflict); }
      var prior := Key(key.intent, head.current);
      if prior in db.attempts.rows {
        var previous := db.attempts.rows[prior];
        if previous.digest == candidate.digest {
          if previous.messageDigest != candidate.messageDigest || previous.blockhash != candidate.blockhash {
            return Err(MessageConflict);
          }
          return Ok(candidate.digest);
        }
        if !MayReplace(FenceOf(previous), r.envelope.attempt, candidate.digest) { return Err(ReplacementRefused); }
        head := head.(current := key.generation);
        heads := heads[key.intent := head];
      } else if key.generation != 1 {
        return Err(FirstMustBeOne);
      }
      if !r.eligible { return Err(NotEligible); }
      if Collides(db.attempts, candidate) { return Err(UniqueViolation); }
      var s := db.attempts;
      db.attempts := Attempts(
        heads, s.rows[key := candidate], s.byDigest[candidate.digest := key],
        s.attemptIds + {candidate.envelope.attempt.attemptId},
        s.fenceTokens + {candidate.envelope.attempt.fenceToken}, s.exposureIds + {candidate.exposureId});
      return Ok(candidate.digest);
    }

    method CancelAttempt(key: Key, fenceToken: Id, principal: Id) returns (reply: Result<CancelAnswer, Refusal>)
      requires Sound()
      modifies db
      ensures Sound() && (db.State(), reply) == Cancel(old(db.State()), key, fenceToken, principal)
    {
      ApplyValid(lib, db.State(), DoCancel(key, fenceToken, principal));
      assert HeadOk(db.attempts, key.intent);
      var s := db.attempts;
      if key.intent !in s.heads || s.heads[key.intent].principal != principal
         || s.heads[key.intent].current != key.generation {
        return Err(StaleCancellation);
      }
      var row := s.rows[key];
      if row.envelope.attempt.fenceToken != fenceToken { return Err(FenceMismatch); }
      if row.state.FinalizationCommitted? { return Ok(FinalizationWon); }
      db.attempts := s.(rows := s.rows[key := row.(state := Cancelled)]);
      return Ok(AnswerCancelled);
    }

    /** The claim's own transaction. */
    method TryClaim(r: ClaimRequest) returns (reply: Result<ClaimReply, Refusal>)
      requires Sound()
      modifies db
      ensures Sound() && (db.State(), reply) == Claim(lib, old(db.State()), r)
    {
      ApplyValid(lib, db.State(), DoClaim(r));
      assert DigestOk(db.attempts, r.envelopeDigest);
      if r.envelopeDigest !in db.attempts.byDigest { return Err(UnknownEnvelope); }
      var key := db.attempts.byDigest[r.envelopeDigest];
      var a := db.attempts.rows[key];
      assert AttemptOk(db.attempts, key);
      var (_, signature) := Inspected(lib, a, r.artifact);
      if signature.None? { return Err(NotCustomerOnly); }
      if db.attempts.heads[key.intent].current != key.generation || a.state.Cancelled? {
        return Err(StaleGeneration);
      }
      var tuple := TupleFor(lib, a, r, signature.value);
      if !TupleAllowed(tuple) { return Err(InvalidTuple); }
      reply := CommitTuple(r, key, a, tuple);
    }

    /** The claim from its tuple on: find the matching rows, or reserve the exposure and commit the fence. */
    method CommitTuple(r: ClaimRequest, key: Key, a: Attempt, tuple: Tuple) returns (reply: Result<ClaimReply, Refusal>)
      requires Sound() && key in db.attempts.rows && db.attempts.rows[key] == a
      modifies db
      ensures (db.State(), reply) == ClaimTuple(lib, old(db.State()), r, key, a, tuple)
    {
      var o := db.operations;
      assert IndexOk(o, key);
      var matches: set<Id> := {};
      if r.id in o.rows { matches := matches + {r.id}; }
      if key in o.byGeneration { matches := matches + {o.byGeneration[key]}; }
      if matches != {} {
        var id :| id in matches;
        if matches != {id} || o.rows[id].tupleDigest != lib.tupleDigest(tuple) || !a.state.FinalizationCommitted?
           || a.finalizationId != Some(id) {
          return Err(TupleConflict);
        }
        return Ok(ClaimReply(if id == r.id then Replay else Converged, o.rows[id]));
      }
      if CommitFence(FenceOf(a), tuple, r.id).None? { return Err(FenceRefused); }
      if !r.eligible { return Err(NotEligible); }
      var refusal := BudgetRefusal(db.State(), a.envelope);
      if refusal.Some? { return Err(refusal.value); }
      if r.signerOperationId in o.signerIds { return Err(UniqueViolation); }
      var row := NewOperation(lib, db.State(), key, a, r, tuple);
      db.operations := InsertOperation(o, row);
      db.attempts := SetAttempt(db.attempts, key, Committed(a, r.id));
      return Ok(ClaimReply(Created, row));
    }

    /** A rejected claim leaves evidence of its artifact; one contradicting an operation freezes it. */
    method ClaimFinalization(r: ClaimRequest) returns (reply: Result<ClaimReply, Refusal>)
      requires Sound()
      modifies db
      ensures Sound() && (db.State(), reply) == ClaimWithEvidence(lib, old(db.State()), r)
    {
      if !lib.validArtifact(r.artifact) { return Err(InvalidSize); }
      var validation := ValidationOf(lib, db.State(), r);
      RejectedClaimWritesNothing(lib, db.State(), r);
      ApplyValid(lib, db.State(), DoRecordCallback(r.envelopeDigest, validation));
      reply := TryClaim(r);
      if reply.Err? && r.envelopeDigest in db.attempts.byDigest {
        var key, v := db.attempts.byDigest[r.envelopeDigest], db.evidence;
        v := v.(callbacks := v.callbacks + {Callback(key, validation)});
        if (validation.Rejected? || validation.SponsorResultPresent?) && key in db.operations.byGeneration {
          v := v.(incidents := v.incidents + {db.operations.byGeneration[key]});
        }
        db.evidence := v;
      }
    }

    method RecordSignerUnknown(id: Id) returns (reply: Result<Operation, Refusal>)
      requires Sound()
      modifies db
      ensures Sound() && (db.State(), reply) == RecordUnknown(old(db.State()), id)
    {
      ApplyValid(lib, db.State(), DoRecordUnknown(id));
      if id !in db.operations.rows { return Err(UnknownFinalization); }
      var row := db.operations.rows[id];
      assert LedgerOk(db.operations, db.evidence, id);
      if row.signerState.SignerRefused? || row.signerState.ResultAvailable? { return Ok(row); }
      if !row.signerState.ContactCommitted? && !row.signerState.ResultUnknown? { return Err(NoContactAuthority); }
      row := row.(signerState := ResultUnknown, exposureState := Uncertain, version := row.version + 1);
      reply := db.UpdateFinalization(row, db.evidence);
    }

    method CommitSignerContact(id: Id, a: Authority) returns (reply: Result<bool, Refusal>)
      requires Sound()
      modifies db
      ensures Sound() && (db.State(), reply) == CommitContact(old(db.State()), id, a)
    {
      ApplyValid(lib, db.State(), DoCommitContact(id, a));
      if id !in db.operations.rows { return Err(UnknownFinalization); }
      var row := db.operations.rows[id];
      assert LedgerOk(db.operations, db.evidence, id);
      if !row.signerState.NotContacted? { return Ok(false); }
      if !HoldsFence(db.State(), row) { return Err(SignerFenceMismatch); }
      if !a.qualified || Reasons(a) != [] { return Err(InvalidatedAuthority); }
      if a.session.None? || a.session.value.createdAt > a.now || !a.session.value.owned
         || a.authenticatedAt < a.session.value.createdAt {
        return Err(InvalidatedAuthority);
      }
      if Contradicted(db.State(), row) { return Err(ContradictoryEvidence); }
      var contact := Contact(row.signerOperationId, row.tupleDigest);
      var ledgers := db.evidence.(contacts := db.evidence.contacts[id := contact]);
      row := row.(signerState := ContactCommitted, exposureState := Uncertain, version := row.version + 1);
      var updated := db.UpdateFinalization(row, ledgers);
      return if updated.Ok? then Ok(true) else Err(updated.error);
    }

    method AcceptSignerResponse(id: Id, response: SignerResponse) returns (reply: Result<Operation, Refusal>)
      requires Sound()
      modifies db
      ensures Sound() && (db.State(), reply) == Accept(lib, old(db.State()), id, response)
    {
      ApplyValid(lib, db.State(), DoAccept(id, response));
      if id !in db.operations.rows { return Err(UnknownFinalization); }
      var row := db.operations.rows[id];
      assert LedgerOk(db.operations, db.evidence, id);
      if !Binds(response, row) || row.signerState.NotContacted? || row.signerState.ExpiredNeverContacted? {
        return Err(SignerConflict);
      }
      match response.verdict {
      case Unknown =>
        if row.signerState.ResultAvailable? || row.signerState.SignerRefused? { return Ok(row); }
        row := row.(signerState := ResultUnknown);
      case RefusedBy(reference) =>
        if !lib.validReference(reference) { return Err(SignerConflict); }
        if row.signerState.SignerRefused? {
          return if row.refusal == Some(reference) then Ok(row) else Err(SignerConflict);
        }
        if row.signerState.ResultAvailable? { return Err(SignerConflict); }
        row := row.(signerState := SignerRefused, refusal := Some(reference), exposureState := Released);
      case SignedBy(artifact) =>
        if !lib.validArtifact(artifact) { return Err(SignerConflict); }
        var seen := lib.inspect(artifact, row.tuple.messageDigest, row.tuple.user, row.tuple.sponsor.publicKey);
        if !seen.FullySigned? || seen.customer != row.tuple.customerSignature { return Err(SignerConflict); }
        if row.signerState.ResultAvailable? {
          return if row.signed == Some(Signed(artifact, seen.transactionId)) then Ok(row) else Err(SignerConflict);
        }
        if row.signerState.SignerRefused? { return Err(SignerConflict); }
        row := row.(signerState := ResultAvailable, signed := Some(Signed(artifact, seen.transactionId)));
      }
      row := row.(version := row.version + 1);
      reply := db.UpdateFinalization(row, db.evidence);
    }

    method ExpireNeverContacted(id: Id, a: Authority) returns (reply: Result<Operation, Refusal>)
      requires Sound()
      modifies db
      ensures Sound() && (db.State(), reply) == Expire(old(db.State()), id, a)
    {
      ApplyValid(lib, db.State(), DoExpire(id, a));
      if id !in db.operations.rows { return Err(UnknownFinalization); }
      var row := db.operations.rows[id];
      assert LedgerOk(db.operations, db.evidence, id);
      if row.signerState.ExpiredNeverContacted? { return Ok(row); }
      if !row.signerState.NotContacted? || !row.exposureState.Reserved? { return Err(CannotReclaim); }
      if !HoldsFence(db.State(), row) { return Err(SignerFenceMismatch); }
      if Contradicted(db.State(), row) { return Err(ContradictoryEvidence); }
      var reasons := Reasons(a);
      if reasons == [] { return Err(NotInvalidated); }
      var expiry := Expiry(row.key.generation, row.exposureId, row.requested, reasons);
      var ledgers := db.evidence.(expiries := db.evidence.expiries[id := expiry]);
      row := row.(signerState := ExpiredNeverContacted, exposureState := Released, version := row.version + 1);
      reply := db.UpdateFinalization(row, ledgers);
    }

    /** The first transaction of settling: immutable evidence, inserted unless it is there already. */
    method RecordEffect(id: Id, seen: Observation) returns (reply: Result<Effect, Refusal>)
      requires Sound()
      modifies db
      ensures Sound() && (db.State(), reply) == Observe(old(db.State()), id, seen)
    {
      ApplyValid(lib, db.State(), DoObserve(id, seen));
      if id !in db.operations.rows { return Err(UnknownFinalization); }
      var row, used := db.operations.rows[id], seen.accounting;
      assert LedgerOk(db.operations, db.evidence, id);
      if !row.signerState.ResultAvailable? || seen.network != row.tuple.sponsor.network
         || seen.transactionId != row.signed.value.transactionId || used.base > row.requested.base
         || used.priority > row.requested.priority || used.rent > row.requested.rent {
        return Err(EffectConflict);
      }
      var key, effects := EffectKey(id, used.reference), db.evidence.effects;
      if key !in effects {
        effects := effects[key := FinalizedAccounting(seen)];
        db.evidence := db.evidence.(effects := effects);
      }
      return if effects[key] == FinalizedAccounting(seen) then Ok(effects[key]) else Err(EffectConflict);
    }

    /** Evidence of a possible effect, which any later expiry of the operation has to reckon with. */
    method RecordPossibleEffect(id: Id, reference: Id, network: Id, transaction: Option<Id>)
      returns (reply: Result<Effect, Refusal>)
      requires Sound()
      modifies db
      ensures Sound() && (db.State(), reply) == ObservePossible(old(db.State()), id, reference, network, transaction)
    {
      ApplyValid(lib, db.State(), DoObservePossible(id, reference, network, transaction));
      if id !in db.operations.rows { return Err(UnknownFinalization); }
      var row, key := db.operations.rows[id], EffectKey(id, reference);
      if row.signerState.ExpiredNeverContacted? || network != row.tuple.sponsor.network { return Err(EffectConflict); }
      if key in db.evidence.effects { return Err(UniqueViolation); }
      var effect := PossibleEffect(network, transaction);
      db.evidence := db.evidence.(effects := db.evidence.effects[key := effect]);
      return Ok(effect);
    }

    method ApplyFinalizedAccounting(id: Id, reference: Id) returns (reply: Result<Operation, Refusal>)
      requires Sound()
      modifies db
      ensures Sound() && (db.State(), reply) == ApplyAccounting(old(db.State()), id, reference)
    {
      ApplyValid(lib, db.State(), DoApplyAccounting(id, reference));
      if id !in db.operations.rows { return Err(UnknownFinalization); }
      var row, key := db.operations.rows[id], EffectKey(id, reference);
      assert LedgerOk(db.operations, db.evidence, id);
      if key !in db.evidence.effects || !row.signerState.ResultAvailable? { return Err(EffectConflict); }
      if db.evidence.effects[key].PossibleEffect? { return Err(EffectConflict); }
      var effect := db.evidence.effects[key].observation;
      if effect.transactionId != row.signed.value.transactionId || effect.network != row.tuple.sponsor.network {
        return Err(EffectConflict);
      }
      if row.exposureState.Consumed? {
        return if row.consumed == Some(effect.accounting) then Ok(row) else Err(AccountingConflict);
      }
      row := row.(exposureState := Consumed, consumed := Some(effect.accounting), version := row.version + 1);
      reply := db.UpdateFinalization(row, db.evidence);
    }

    /**
     Settles an operation from what the trusted observer answers for it; no observation stands for an observer
     that does not know. The operation is read before the observer is asked.
     */
    method SettleExposure(id: Id, answer: Option<Observation>) returns (reply: Result<Operation, Refusal>)
      requires Sound()
      modifies db
      ensures Sound() && (db.State(), reply) == Settle(old(db.State()), id, answer)
    {
      if id !in db.operations.rows { return Err(NoCompletedArtifact); }
      var snapshot := db.operations.rows[id];
      assert LedgerOk(db.operations, db.evidence, id);
      if !snapshot.signerState.ResultAvailable? { return Err(NoCompletedArtifact); }
      if answer.None? { return Ok(snapshot); }
      var seen := answer.value;
      if seen.transactionId != snapshot.signed.value.transactionId || seen.network != snapshot.tuple.sponsor.network {
        return Err(EffectConflict);
      }
      var recorded := RecordEffect(id, seen);
      if recorded.Err? { return Err(recorded.error); }
      reply := ApplyFinalizedAccounting(id, seen.accounting.reference);
    }
  }

  /** Settling with no other call in between: nothing without a result, then the evidence, then the accounting. */
  function Settle(db: Db, id: Id, answer: Option<Observation>): (Db, Result<Operation, Refusal>) {
    if id !in db.operations.rows || !db.operations.rows[id].signerState.ResultAvailable? then
      (db, Err(NoCompletedArtifact))
    else if answer.None? then (db, Ok(db.operations.rows[id]))
    else
      var observed := Observe(db, id, answer.value);
      if observed.1.Err? then (observed.0, Err(observed.1.error))
      else ApplyAccounting(observed.0, id, answer.value.accounting.reference)
  }

  /** A malformed artifact is refused before anything is read; any other rejection leaves its evidence. */
  function ClaimWithEvidence(lib: Library, db: Db, r: ClaimRequest): (Db, Result<ClaimReply, Refusal>) {
    if !lib.validArtifact(r.artifact) then (db, Err(InvalidSize))
    else
      var (next, reply) := Claim(lib, db, r);
      (if reply.Ok? then next else RecordCallback(db, r.envelopeDigest, ValidationOf(lib, db, r)), reply)
  }

  lemma RejectedClaimWritesNothing(lib: Library, db: Db, r: ClaimRequest)
    ensures Claim(lib, db, r).1.Err? ==> Claim(lib, db, r).0 == db
  {
  }

  class TrustedRegistryAdministration {
    const lib: Library
    const db: Database

    constructor (lib: Library, db: Database)
      ensures this.lib == lib && this.db == db
    {
      this.lib, this.db := lib, db;
    }

    ghost predicate Sound() reads db { Valid(lib, db.State()) }

    method InstallSponsorBudget(sponsor: Sponsor, r: BudgetRequest, network: Option<Registered>, now: nat)
      returns (reply: Result<nat, Refusal>)
      requires Sound()
      modifies db
      ensures Sound() && (db.State(), reply) == InstallBudget(old(db.State()), sponsor, r, network, now)
    {
      ApplyValid(lib, db.State(), DoInstallBudget(sponsor, r, network, now));
      var b := db.budgets;
      if r.limits.outstanding == 0 { return Err(InvalidLimit); }
      if network.None? || network.value.revoked || network.value.effectiveAt > now { return Err(NotEligible); }
      if r.budgetId in b.versions || r.budgetId in b.heads || sponsor in b.bySponsor { return Err(UniqueViolation); }
      b := b.(versions := b.versions[r.budgetId := BudgetVersion(r.budgetId, 1, sponsor, r.limits)]);
      b := b.(heads := b.heads[r.budgetId := BudgetHead(sponsor, r.budgetId, true, 1)]);
      db.budgets := b.(bySponsor := b.bySponsor[sponsor := r.budgetId]);
      return Ok(1);
    }

    method SetStatus(family: Id, expected: nat, active: bool) returns (reply: Result<nat, Refusal>)
      requires Sound()
      modifies db
      ensures Sound() && (db.State(), reply) == SetBudgetStatus(old(db.State()), family, expected, active)
    {
      ApplyValid(lib, db.State(), DoSetBudgetStatus(family, expected, active));
      var b := db.budgets;
      if family !in b.heads || b.heads[family].revision != expected { return Err(StaleRevision); }
      var head := b.heads[family];
      if head.active == active { return Ok(expected); }
      head := head.(active := active, revision := head.revision + 1);
      db.budgets := b.(heads := b.heads[family := head]);
      return Ok(head.revision);
    }

    method Revise(family: Id, expected: nat, r: BudgetRequest) returns (reply: Result<nat, Refusal>)
      requires Sound()
      modifies db
      ensures Sound() && (db.State(), reply) == ReviseBudget(old(db.State()), family, expected, r)
    {
      ApplyValid(lib, db.State(), DoReviseBudget(family, expected, r));
      var b := db.budgets;
      assert FamilyOk(b, family);
      if r.limits.outstanding == 0 { return Err(InvalidLimit); }
      if family !in b.heads || b.heads[family].revision != expected { return Err(StaleRevision); }
      if r.budgetId in b.versions { return Err(UniqueViolation); }
      var head := b.heads[family];
      var next := b.versions[head.current].version + 1;
      b := b.(versions := b.versions[r.budgetId := BudgetVersion(family, next, head.sponsor, r.limits)]);
      head := head.(current := r.budgetId, revision := head.revision + 1);
      db.budgets := b.(heads := b.heads[family := head]);
      return Ok(head.revision);
    }
  }
}
