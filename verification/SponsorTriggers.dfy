/**
 The database's own guards, as its migrations write them, against the writes the transactions issue: which guards
 never refuse one, and exactly when the freeze guard does.
 */
module SponsorTriggers {
  import opened Wrappers
  import opened SponsorTables
  import opened SponsorClaim
  import opened SponsorSteps
  import opened SponsorFences
  import opened SponsorLedger
  import opened SponsorBudgets
  import opened SponsorRuns

  // ---- finalizations -------------------------------------------------------------------------------------

  /** The deferred authority guard: an expiry is proved by its record, any other contacted state by its contact. */
  ghost predicate AuthorityAllows(db: Db, o: Operation) {
    if o.signerState.ExpiredNeverContacted? then
      && o.id !in db.evidence.contacts && !HasEffect(db.evidence, o.id)
      && o.id in db.evidence.expiries && Proves(db.evidence.expiries[o.id], o)
    else
      o.signerState.NotContacted?
      || (o.id in db.evidence.contacts && db.evidence.contacts[o.id] == Contact(o.signerOperationId, o.tupleDigest))
  }

  /** The part of the capacity trigger that binds a row to its attempt. */
  predicate AttemptAllows(db: Db, o: Operation) {
    && o.key in db.attempts.rows
    && var a := db.attempts.rows[o.key];
       && a.exposureId == o.exposureId && a.envelope.maxBase == o.requested.base
       && a.envelope.maxPriority == o.requested.priority && a.envelope.maxRent == o.requested.rent
  }

  lemma StoredPasses(lib: Library, db: Db, id: Id)
    requires Valid(lib, db) && id in db.operations.rows
    ensures var o := db.operations.rows[id];
            && Lifecycle(o) && CapacityAllows(db, o, false) && AttemptAllows(db, o) && AuthorityAllows(db, o)
  {
    assert LedgerOk(db.operations, db.evidence, id) && ChargedOk(db.operations, db.budgets, id);
    assert VersionFits(db, db.operations.rows[id].budgetId) && VersionOk(db.budgets, db.operations.rows[id].budgetId);
    assert RowOk(lib, db.attempts, db.operations, id);
    StatesAgreeWithLedgers(lib, db, id);
  }

  /**
   No write a transaction issues is refused by the lifecycle check, the update guard, the authority guard or the
   capacity trigger, whether or not the operation is frozen.
   */
  lemma WritesPassGuards(lib: Library, db: Db, c: Call)
    requires Valid(lib, db) && Target(c).Some? && ProposalOf(lib, db, c).Writes?
    ensures var row := ProposalOf(lib, db, c).row;
            var next := Written(db, row, ProposalOf(lib, db, c).evidence);
            && row.id == Target(c).value && row.id in db.operations.rows
            && GuardAllows(db.operations.rows[row.id], row) && Lifecycle(row)
            && CapacityAllows(next, row, false) && AttemptAllows(next, row) && AuthorityAllows(next, row)
  {
    var p := ProposalOf(lib, db, c);
    var next := Written(db, p.row, p.evidence);
    TargetedProposes(lib, db, c);
    MovedKeeps(db, next, Target(c).value);
    RestatingKeepsFences(lib, db, next);
    UpdateKeepsCharges(db, next, Target(c).value);
    StoredPasses(lib, next, Target(c).value);
  }

  /** The calls whose write contacts, expires, refuses or consumes; the others record an unknown or a signed result. */
  predicate Stops(c: Call) {
    c.DoCommitContact? || c.DoExpire? || c.DoApplyAccounting? || (c.DoAccept? && c.response.verdict.RefusedBy?)
  }

  /** The freeze guard refuses a write exactly when an incident is on record and the call is one it stops. */
  lemma FreezeRefusesIff(lib: Library, db: Db, c: Call)
    requires Valid(lib, db) && Target(c).Some? && ProposalOf(lib, db, c).Writes?
    ensures FreezeRefuses(db, ProposalOf(lib, db, c).row) <==> Target(c).value in db.evidence.incidents && Stops(c)
  {
    assert LedgerOk(db.operations, db.evidence, Target(c).value);
  }

  /** A call answers that its operation is frozen exactly then, and leaves everything as it was. */
  lemma FrozenIff(lib: Library, db: Db, c: Call)
    requires Valid(lib, db) && Target(c).Some?
    ensures Judged(db, ProposalOf(lib, db, c)).1 == Err(Frozen)
            <==> ProposalOf(lib, db, c).Writes? && Target(c).value in db.evidence.incidents && Stops(c)
    ensures Judged(db, ProposalOf(lib, db, c)).1 == Err(Frozen) ==> Apply(lib, db, c) == db
  {
    TargetedIsJudged(lib, db, c);
    if ProposalOf(lib, db, c).Writes? { FreezeRefusesIff(lib, db, c); }
  }

  /** Every other call leaves the finalizations that are there as they were. */
  lemma OthersKeepRows(lib: Library, db: Db, c: Call, id: Id)
    requires Valid(lib, db) && Target(c).None? && id in db.operations.rows
    ensures id in Apply(lib, db, c).operations.rows
    ensures Apply(lib, db, c).operations.rows[id] == db.operations.rows[id]
  {
    if c.DoClaim? && Apply(lib, db, c) != db { ClaimEffect(lib, db, c.claim); }
  }

  /** No row a claim inserts is refused: it starts in the initial state, bound and within capacity. */
  lemma InsertPassesTriggers(lib: Library, db: Db, r: ClaimRequest)
    requires Valid(lib, db) && Claim(lib, db, r).0 != db
    ensures Claim(lib, db, r).1.Ok?
    ensures var next, o := Claim(lib, db, r).0, Claim(lib, db, r).1.value.operation;
            && o.id in next.operations.rows && next.operations.rows[o.id] == o && o == Fixed(o)
            && CapacityAllows(next, o, true) && AttemptAllows(next, o) && AuthorityAllows(next, o)
            && next.attempts.rows[o.key].state.FinalizationCommitted?
            && next.attempts.rows[o.key].finalizationId == Some(o.id)
  {
    ApplyValid(lib, db, DoClaim(r));
    ClaimEffect(lib, db, r);
    ClaimFitsFamily(lib, db, r);
    StoredPasses(lib, Claim(lib, db, r).0, r.id);
  }

  // ---- attempts and heads ----------------------------------------------------------------------------------

  /** The attempt guard: only an open attempt changes, only its state, and only to a closed one. */
  predicate AttemptGuardAllows(a: Attempt, b: Attempt) {
    && a.state.Open? && !b.state.Open?
    && b == a.(state := b.state, finalizationId := b.finalizationId)
    && (b.state.FinalizationCommitted? <==> b.finalizationId.Some?)
  }

  /** The head guard: a head moves on by one generation, past a cancelled attempt. */
  predicate HeadGuardAllows(s: Attempts, intent: Id, h: Head, i: Head) {
    && i == h.(current := h.current + 1) && Key(intent, h.current) in s.rows
    && s.rows[Key(intent, h.current)].state.Cancelled?
  }

  lemma AttemptsPassGuards(lib: Library, db: Db, c: Call, k: Key)
    requires Valid(lib, db)
    ensures var s, t := db.attempts, Apply(lib, db, c).attempts;
            k in s.rows ==> k in t.rows && (t.rows[k] == s.rows[k] || AttemptGuardAllows(s.rows[k], t.rows[k]))
  {
    assert AttemptOk(db.attempts, k);
    if c.DoRegister? { RegisterKeepsRows(lib, db, c.registration); }
    else if c.DoClaim? { if Apply(lib, db, c) != db { ClaimEffect(lib, db, c.claim); } }
    else if !c.DoCancel? { OthersKeepAttempts(lib, db, c); }
  }

  lemma RegisterKeepsRows(lib: Library, db: Db, r: Registration)
    ensures forall k :: k in db.attempts.rows ==>
              k in Register(lib, db, r).0.attempts.rows
              && Register(lib, db, r).0.attempts.rows[k] == db.attempts.rows[k]
  {
  }

  lemma OthersKeepAttempts(lib: Library, db: Db, c: Call)
    requires Valid(lib, db) && !c.DoRegister? && !c.DoCancel? && !c.DoClaim?
    ensures Apply(lib, db, c).attempts == db.attempts
  {
    if Target(c).Some? {
      TargetedMoves(lib, db, c);
      MovedKeeps(db, Apply(lib, db, c), Target(c).value);
    } else if OnlyEvidence(c) {
      EvidenceValid(lib, db, c);
    } else {
      BudgetValid(lib, db, c);
    }
  }

  lemma HeadsPassGuards(lib: Library, db: Db, c: Call, intent: Id)
    requires Valid(lib, db)
    ensures var s, t := db.attempts, Apply(lib, db, c).attempts;
            intent in s.heads ==>
              intent in t.heads
              && (t.heads[intent] == s.heads[intent] || HeadGuardAllows(s, intent, s.heads[intent], t.heads[intent]))
  {
    assert HeadOk(db.attempts, intent);
    if intent in db.attempts.heads { assert AttemptOk(db.attempts, Key(intent, db.attempts.heads[intent].current)); }
    if c.DoClaim? { if Apply(lib, db, c) != db { ClaimEffect(lib, db, c.claim); } }
    else if !c.DoRegister? && !c.DoCancel? { OthersKeepAttempts(lib, db, c); }
  }
}
