/**
 When each transaction answers what, for every input and in every valid state, in terms of the stored rows: the
 laws elsewhere say what an answer entails, these say when it is given.
 */
module SponsorAnswers {
  import opened Wrappers
  import opened SponsorTables
  import opened SponsorClaim
  import opened SponsorSteps
  import opened SponsorFences
  import opened SponsorLedger
  import opened SponsorBudgets
  import opened SponsorRuns
  import opened SponsorHistory

  // ---- cancellation --------------------------------------------------------------------------------------

  /** The canceller owns the intent and names its current generation. */
  predicate OwnsCurrent(db: Db, key: Key, principal: Id) {
    key.intent in db.attempts.heads && db.attempts.heads[key.intent].principal == principal
    && db.attempts.heads[key.intent].current == key.generation
  }

  predicate HoldsToken(db: Db, key: Key, token: Id) {
    key in db.attempts.rows && db.attempts.rows[key].envelope.attempt.fenceToken == token
  }

  /**
   A cancellation is refused iff owner, generation or token does not match. Otherwise finalization has won iff the
   generation has a finalization, and else the attempt is cancelled afterwards and nothing else has changed.
   */
  lemma CancelAnswers(lib: Library, db: Db, key: Key, token: Id, principal: Id)
    requires Valid(lib, db)
    ensures var (next, reply) := Cancel(db, key, token, principal);
            && (reply.Err? <==> !OwnsCurrent(db, key, principal) || !HoldsToken(db, key, token))
            && (reply.Err? ==> next == db)
            && (reply == Err(StaleCancellation) <==> !OwnsCurrent(db, key, principal))
            && (reply == Ok(FinalizationWon) <==>
                  OwnsCurrent(db, key, principal) && HoldsToken(db, key, token) && key in db.operations.byGeneration)
            && (reply == Ok(FinalizationWon) ==> next == db)
            && (reply == Ok(AnswerCancelled) ==>
                  && key in next.attempts.rows && next.attempts.rows[key].state.Cancelled?
                  && next == db.(attempts := db.attempts.(rows := db.attempts.rows[key := next.attempts.rows[key]]))
                  && next.attempts.rows[key].envelope == db.attempts.rows[key].envelope)
  {
    assert HeadOk(db.attempts, key.intent) && AttemptOk(db.attempts, key);
    ClaimedIsCommitted(lib, db.attempts, db.operations, key);
    assert FinalizationOk(db.attempts, db.operations, key);
    if key in db.attempts.rows && db.attempts.rows[key].finalizationId.Some? {
      assert RowOk(lib, db.attempts, db.operations, db.attempts.rows[key].finalizationId.value);
    }
  }

  // ---- budgets -------------------------------------------------------------------------------------------

  /** The operations of a family whose exposure is still reserved or uncertain. */
  ghost function Outstanding(db: Db, f: Id): set<Id> {
    set id | id in db.operations.rows && db.operations.rows[id].budgetId in db.budgets.versions
             && db.budgets.versions[db.operations.rows[id].budgetId].family == f
             && (db.operations.rows[id].exposureState.Reserved? || db.operations.rows[id].exposureState.Uncertain?)
  }

  ghost predicate HasActiveBudget(db: Db, e: Envelope) {
    exists f :: f in db.budgets.heads && db.budgets.heads[f].sponsor == e.sponsor && db.budgets.heads[f].active
  }

  /** The limits of the sponsor's current version leave room for the envelope's maxima and one more operation. */
  ghost predicate HasRoom(db: Db, e: Envelope) {
    exists f :: f in db.budgets.heads && db.budgets.heads[f].sponsor == e.sponsor && Fits(db, f, e)
  }

  ghost predicate Fits(db: Db, f: Id, e: Envelope) {
    && f in db.budgets.heads && db.budgets.heads[f].current in db.budgets.versions
    && var limits, charged := db.budgets.versions[db.budgets.heads[f].current].limits, FamilyCharge(db, f);
       && charged.base + e.maxBase <= limits.base && charged.priority + e.maxPriority <= limits.priority
       && charged.rent + e.maxRent <= limits.rent && |Outstanding(db, f)| < limits.outstanding
  }

  lemma OutstandingIsHeld(db: Db, f: Id)
    requires Charges(db)
    ensures FamilyCharge(db, f).outstanding == |Outstanding(db, f)|
  {
    OutstandingIsCount(db.operations.order, db.operations.rows, Family(db.budgets, f));
    OutstandingIsHolding(db, f);
  }

  lemma OutstandingIsHolding(db: Db, f: Id)
    requires forall id {:trigger ChargedOk(db.operations, db.budgets, id)} :: ChargedOk(db.operations, db.budgets, id)
    ensures Outstanding(db, f) == Holding(db.operations.order, db.operations.rows, Family(db.budgets, f))
  {
    forall id ensures id in Outstanding(db, f)
                      <==> id in Holding(db.operations.order, db.operations.rows, Family(db.budgets, f))
    {
      assert ChargedOk(db.operations, db.budgets, id);
    }
  }

  lemma FamilyOfSponsor(db: Db, f: Id)
    requires Charges(db) && f in db.budgets.heads
    ensures db.budgets.heads[f].sponsor in db.budgets.bySponsor
    ensures db.budgets.bySponsor[db.budgets.heads[f].sponsor] == f
  {
    assert FamilyOk(db.budgets, f);
  }

  /** A new claim is refused as disabled iff its sponsor has no active family, and as exhausted iff that has no room. */
  lemma BudgetAnswers(db: Db, e: Envelope)
    requires Charges(db)
    ensures BudgetRefusal(db, e) == if !HasActiveBudget(db, e) then Some(BudgetDisabled)
                                    else if !HasRoom(db, e) then Some(BudgetExhausted) else None
  {
    assert SponsorOk(db.budgets, e.sponsor);
    forall f | f in db.budgets.heads && db.budgets.heads[f].sponsor == e.sponsor
      ensures e.sponsor in db.budgets.bySponsor && db.budgets.bySponsor[e.sponsor] == f
    {
      FamilyOfSponsor(db, f);
    }
    if e.sponsor in db.budgets.bySponsor {
      var f := db.budgets.bySponsor[e.sponsor];
      OutstandingIsHeld(db, f);
      assert FamilyOk(db.budgets, f);
    }
  }

  // ---- claims --------------------------------------------------------------------------------------------

  /** What the claim asks beyond the decision: a new operation needs eligibility, budget and a fresh signer id. */
  lemma ClaimAcceptsIff(lib: Library, db: Db, r: ClaimRequest)
    requires Valid(lib, db) && CollisionFree(lib) && Readable(lib, db, r)
    ensures var e := db.attempts.rows[db.attempts.byDigest[r.envelopeDigest]].envelope;
            Claim(lib, db, r).1.Ok? <==>
              && Decide(lib, db, r).Ok?
              && (Decide(lib, db, r).value.disposition.Created? ==>
                    && r.eligible && r.signerOperationId !in db.operations.signerIds
                    && HasActiveBudget(db, e) && HasRoom(db, e))
  {
    ClaimConditions(lib, db, r);
    BudgetAnswers(db, db.attempts.rows[db.attempts.byDigest[r.envelopeDigest]].envelope);
  }

  /** The artifact carries the message `m` with the customer's signature `signature` and no sponsor's. */
  predicate CustomerSigned(lib: Library, a: Attempt, artifact: Id, m: Id, signature: Id) {
    lib.carriedMessage(artifact, a.envelope, a.blockhash) == Some(m)
    && lib.inspect(artifact, m, a.envelope.user, a.envelope.sponsor.publicKey) == CustomerOnly(signature)
  }

  /** The tuple of the attempt, over that message and signature, with the consent of the request. */
  predicate Presents(t: Tuple, a: Attempt, r: ClaimRequest, m: Id, signature: Id) {
    && t.attempt == a.envelope.attempt && t.sponsor == a.envelope.sponsor && t.user == a.envelope.user
    && t.runtime == a.envelope.runtime && t.exposureId == a.exposureId && t.envelopeDigest == r.envelopeDigest
    && t.consentId == r.consentId && t.messageDigest == m && t.customerSignature == signature
  }

  ghost predicate Acceptable(lib: Library, db: Db, r: ClaimRequest, key: Key, m: Id, signature: Id) {
    && r.envelopeDigest in db.attempts.byDigest && db.attempts.byDigest[r.envelopeDigest] == key
    && key in db.attempts.rows && key.intent in db.attempts.heads
    && var a := db.attempts.rows[key];
       && CustomerSigned(lib, a, r.artifact, m, signature) && a.envelope.user != a.envelope.sponsor.publicKey
       && db.attempts.heads[key.intent].current == key.generation && !a.state.Cancelled?
       && (if key in db.operations.byGeneration then Repeats(db, r, key, m, signature) else Commits(db, r, key, m))
  }

  /** The attempt is finalized over the same tuple, and the claimed id is that finalization's or a new one. */
  ghost predicate Repeats(db: Db, r: ClaimRequest, key: Key, m: Id, signature: Id) {
    && key in db.attempts.rows && key in db.operations.byGeneration
    && db.operations.byGeneration[key] in db.operations.rows
    && Presents(db.operations.rows[db.operations.byGeneration[key]].tuple, db.attempts.rows[key], r, m, signature)
    && (r.id in db.operations.rows ==> r.id == db.operations.byGeneration[key])
  }

  /** The attempt is not finalized: ids are new, the message is the prepared one, and there is room in the budget. */
  ghost predicate Commits(db: Db, r: ClaimRequest, key: Key, m: Id) {
    && key in db.attempts.rows && m == db.attempts.rows[key].messageDigest
    && r.id !in db.operations.rows && r.signerOperationId !in db.operations.signerIds && r.eligible
    && HasActiveBudget(db, db.attempts.rows[key].envelope) && HasRoom(db, db.attempts.rows[key].envelope)
  }

  lemma TupleAnswers(lib: Library, db: Db, r: ClaimRequest, key: Key, tuple: Tuple)
    requires Valid(lib, db) && CollisionFree(lib) && key in db.attempts.rows && TupleAllowed(tuple)
    ensures var a := db.attempts.rows[key];
            ClaimTuple(lib, db, r, key, a, tuple).1.Ok? <==>
              if key in db.operations.byGeneration
              then db.operations.byGeneration[key] in db.operations.rows
                   && db.operations.rows[db.operations.byGeneration[key]].tuple == tuple
                   && (r.id in db.operations.rows ==> r.id == db.operations.byGeneration[key])
              else r.id !in db.operations.rows && CommitFence(FenceOf(a), tuple, r.id).Some? && r.eligible
                   && BudgetRefusal(db, a.envelope).None? && r.signerOperationId !in db.operations.signerIds
  {
    ClaimedIsCommitted(lib, db.attempts, db.operations, key);
    assert FinalizationOk(db.attempts, db.operations, key) && RowOk(lib, db.attempts, db.operations, r.id);
  }

  /** A claim is accepted exactly when the stored rows say so. */
  lemma ClaimAnswers(lib: Library, db: Db, r: ClaimRequest)
    requires Valid(lib, db) && CollisionFree(lib)
    ensures Claim(lib, db, r).1.Ok? <==> exists key, m, signature :: Acceptable(lib, db, r, key, m, signature)
  {
    if r.envelopeDigest in db.attempts.byDigest {
      assert DigestOk(db.attempts, r.envelopeDigest) && AttemptOk(db.attempts, db.attempts.byDigest[r.envelopeDigest]);
      ReadableClaimAnswers(lib, db, r, db.attempts.byDigest[r.envelopeDigest]);
    }
  }

  lemma ReadableClaimAnswers(lib: Library, db: Db, r: ClaimRequest, key: Key)
    requires Valid(lib, db) && CollisionFree(lib)
    requires r.envelopeDigest in db.attempts.byDigest && db.attempts.byDigest[r.envelopeDigest] == key
    requires key in db.attempts.rows && key.intent in db.attempts.heads && AttemptOk(db.attempts, key)
    ensures Claim(lib, db, r).1.Ok? <==> exists m, signature :: Acceptable(lib, db, r, key, m, signature)
  {
    var a := db.attempts.rows[key];
    if Inspected(lib, a, r.artifact).1.Some? {
      var m, signature := CarriedMessage(lib, a, r.artifact), Inspected(lib, a, r.artifact).1.value;
      assert CustomerSigned(lib, a, r.artifact, m, signature);
      assert DigestOk(db.attempts, r.envelopeDigest);
      SignedClaimAnswers(lib, db, r, key, m, signature);
    }
  }

  lemma SignedClaimAnswers(lib: Library, db: Db, r: ClaimRequest, key: Key, m: Id, signature: Id)
    requires Valid(lib, db) && CollisionFree(lib)
    requires r.envelopeDigest in db.attempts.byDigest && db.attempts.byDigest[r.envelopeDigest] == key
    requires key in db.attempts.rows && key.intent in db.attempts.heads && AttemptOk(db.attempts, key)
    requires db.attempts.rows[key].digest == r.envelopeDigest
    requires CustomerSigned(lib, db.attempts.rows[key], r.artifact, m, signature)
    ensures Claim(lib, db, r).1.Ok? <==> Acceptable(lib, db, r, key, m, signature)
  {
    var a := db.attempts.rows[key];
    var tuple := TupleFor(lib, a, r, signature);
    assert Presents(tuple, a, r, m, signature);
    if TupleAllowed(tuple) && db.attempts.heads[key.intent].current == key.generation && !a.state.Cancelled? {
      TupleAnswers(lib, db, r, key, tuple);
      if key in db.operations.byGeneration {
        StoredTuple(lib, db, r, key, m, signature, tuple);
      } else {
        OpenFence(lib, db, key, tuple, r.id);
        BudgetAnswers(db, a.envelope);
      }
    }
  }

  /** A tuple is determined by what it presents. */
  lemma StoredTuple(lib: Library, db: Db, r: ClaimRequest, key: Key, m: Id, signature: Id, tuple: Tuple)
    requires Valid(lib, db) && key in db.attempts.rows && key in db.operations.byGeneration
    requires Presents(tuple, db.attempts.rows[key], r, m, signature)
    ensures Repeats(db, r, key, m, signature) <==>
              && db.operations.byGeneration[key] in db.operations.rows
              && db.operations.rows[db.operations.byGeneration[key]].tuple == tuple
              && (r.id in db.operations.rows ==> r.id == db.operations.byGeneration[key])
  {
  }

  /** The fence of an attempt that is neither cancelled nor finalized takes any tuple over the prepared message. */
  lemma OpenFence(lib: Library, db: Db, key: Key, tuple: Tuple, id: Id)
    requires Valid(lib, db) && key in db.attempts.rows && key !in db.operations.byGeneration
    requires var a := db.attempts.rows[key];
             && !a.state.Cancelled? && TupleAllowed(tuple)
             && tuple.attempt == a.envelope.attempt && tuple.envelopeDigest == a.digest
    ensures CommitFence(FenceOf(db.attempts.rows[key]), tuple, id).Some?
            <==> tuple.messageDigest == db.attempts.rows[key].messageDigest
  {
    FinalizationIffCommitted(lib, db, key);
  }

  /**
   A claim that lacks at most a budget is refused as disabled iff the sponsor has no active budget, as exhausted iff
   that has no room, and otherwise creates the operation.
   */
  lemma BudgetDecidesClaim(lib: Library, db: Db, r: ClaimRequest, key: Key, m: Id, signature: Id)
    requires Valid(lib, db) && CollisionFree(lib)
    requires r.envelopeDigest in db.attempts.byDigest && db.attempts.byDigest[r.envelopeDigest] == key
    requires key in db.attempts.rows && key.intent in db.attempts.heads && AttemptOk(db.attempts, key)
    requires LacksOnlyBudget(lib, db, r, key, m, signature)
    ensures var e, reply := db.attempts.rows[key].envelope, Claim(lib, db, r).1;
            && (reply == Err(BudgetDisabled) <==> !HasActiveBudget(db, e))
            && (reply == Err(BudgetExhausted) <==> HasActiveBudget(db, e) && !HasRoom(db, e))
            && (reply.Ok? <==> HasActiveBudget(db, e) && HasRoom(db, e))
            && (reply.Ok? ==> reply.value.disposition.Created?)
  {
    var a := db.attempts.rows[key];
    assert DigestOk(db.attempts, r.envelopeDigest);
    OpenFence(lib, db, key, TupleFor(lib, a, r, signature), r.id);
    BudgetAnswers(db, a.envelope);
  }

  ghost predicate LacksOnlyBudget(lib: Library, db: Db, r: ClaimRequest, key: Key, m: Id, signature: Id) {
    && key in db.attempts.rows && key.intent in db.attempts.heads
    && var a := db.attempts.rows[key];
       && CustomerSigned(lib, a, r.artifact, m, signature) && a.envelope.user != a.envelope.sponsor.publicKey
       && db.attempts.heads[key.intent].current == key.generation && !a.state.Cancelled? && m == a.messageDigest
       && key !in db.operations.byGeneration && r.id !in db.operations.rows
       && r.signerOperationId !in db.operations.signerIds && r.eligible
  }

  /** An accepted claim answers with the generation's one finalization, and says if it was there and under which id. */
  lemma ClaimDisposition(lib: Library, db: Db, r: ClaimRequest)
    requires Valid(lib, db) && Claim(lib, db, r).1.Ok?
    ensures r.envelopeDigest in db.attempts.byDigest
    ensures var key := db.attempts.byDigest[r.envelopeDigest];
            var (next, reply) := (Claim(lib, db, r).0, Claim(lib, db, r).1.value);
            && (reply.disposition.Created? <==> key !in db.operations.byGeneration)
            && (reply.disposition.Replay? <==>
                  key in db.operations.byGeneration && db.operations.byGeneration[key] == r.id)
            && key in next.operations.byGeneration && next.operations.byGeneration[key] in next.operations.rows
            && reply.operation == next.operations.rows[next.operations.byGeneration[key]]
            && (reply.disposition.Created? <==> next != db)
  {
    var key := db.attempts.byDigest[r.envelopeDigest];
    if Claim(lib, db, r).0 != db {
      ClaimEffect(lib, db, r);
    } else {
      NotCreated(lib, db, r);
      StoredReply(lib, db, r, key);
    }
  }

  lemma StoredReply(lib: Library, db: Db, r: ClaimRequest, key: Key)
    requires Valid(lib, db) && Claim(lib, db, r).1.Ok? && !Claim(lib, db, r).1.value.disposition.Created?
    requires r.envelopeDigest in db.attempts.byDigest && db.attempts.byDigest[r.envelopeDigest] == key
    ensures key in db.operations.byGeneration && db.operations.byGeneration[key] in db.operations.rows
    ensures Claim(lib, db, r).1.value.operation == db.operations.rows[db.operations.byGeneration[key]]
    ensures Claim(lib, db, r).1.value.disposition.Replay? <==> db.operations.byGeneration[key] == r.id
  {
    ClaimedIsCommitted(lib, db.attempts, db.operations, key);
    assert FinalizationOk(db.attempts, db.operations, key) && RowOk(lib, db.attempts, db.operations, r.id);
  }
}
