/** A run in which an incident freezes an operation against the signer's own refusal. */
module SponsorFrozenRefusal {
  import opened Wrappers
  import opened SponsorTables
  import opened SponsorClaim
  import opened SponsorSteps
  import opened SponsorFences
  import opened SponsorLedger
  import opened SponsorRuns
  import opened SponsorHistory
  import opened SponsorTriggers
  import opened SponsorShrunkBudget

  const LIVE := Authority(
    5, 9, true, Validity(9, false), 3, Validity(9, false), Some(Session(1, Validity(9, false), true)),
    false, false, true)

  const CONTACT := DoCommitContact(60, LIVE)

  /** The same attempt claimed again with an artifact whose signatures cannot be read. */
  const REPEATED := ClaimRequest(64, 100, 61, 99, 65, true)

  const CALLBACK := DoRecordCallback(100, Rejected)

  const REFUSAL := SignerResponse(63, 300, 7, 5, RefusedBy(70))

  const CONTACTED: seq<Call> := CLAIMED + [CONTACT]

  const FROZEN: seq<Call> := CLAIMED + [CONTACT] + [CALLBACK]

  /** The row the claim created, in a state of the signer and of its exposure. */
  ghost predicate RowHolds(o: Operation, s: SignerState, e: ExposureState) {
    && o.id == 60 && o.key == Key(1, 1) && o.signerState == s && o.exposureState == e
    && o.signerOperationId == 63 && o.tupleDigest == 300 && o.tuple.sponsor == SPONSOR
  }

  ghost predicate AttemptHolds(s: Attempts) {
    && 100 in s.byDigest && s.byDigest[100] == Key(1, 1) && Key(1, 1) in s.rows
    && s.rows[Key(1, 1)] == Committed(SampleAttempt(), 60) && s.heads == map[1 := Head(4, 1)]
  }

  /** What the later steps read of the claimed state. */
  ghost predicate Holding(db: Db, s: SignerState, e: ExposureState) {
    && 60 in db.operations.rows && RowHolds(db.operations.rows[60], s, e) && AttemptHolds(db.attempts)
    && Key(1, 1) in db.operations.byGeneration && db.operations.byGeneration[Key(1, 1)] == 60
  }

  lemma ClaimHolds()
    ensures Run(SampleLibrary(), CLAIMED) == Claimed() && Holding(Claimed(), NotContacted, Reserved)
    ensures Claimed().evidence == EMPTY.evidence
  {
    ClaimIsRun();
    ClaimIsCreated();
    ClaimEffect(SampleLibrary(), RegisteredDb(), CLAIM);
  }

  lemma NothingContradicts(db: Db)
    requires Holding(db, NotContacted, Reserved) && db.evidence == EMPTY.evidence
    ensures MayContact(LIVE) && HoldsFence(db, db.operations.rows[60]) && !Contradicted(db, db.operations.rows[60])
  {
  }

  lemma ContactStep(lib: Library, db: Db)
    requires Holding(db, NotContacted, Reserved) && db.evidence == EMPTY.evidence
    ensures Holding(Apply(lib, db, CONTACT), ContactCommitted, Uncertain)
    ensures Apply(lib, db, CONTACT).evidence.incidents == {}
  {
    NothingContradicts(db);
    var o, p := db.operations.rows[60], ContactProposal(db, 60, LIVE);
    var contacted := o.(signerState := ContactCommitted, exposureState := Uncertain, version := o.version + 1);
    assert p.Writes? && p.row == contacted;
  }

  lemma ContactHolds()
    ensures Holding(Run(SampleLibrary(), CONTACTED), ContactCommitted, Uncertain)
    ensures Run(SampleLibrary(), CONTACTED).evidence.incidents == {}
  {
    ClaimHolds();
    StepExtends(SampleLibrary(), CLAIMED, CONTACT);
    ContactStep(SampleLibrary(), Claimed());
  }

  lemma CallbackStep(lib: Library, db: Db)
    requires Holding(db, ContactCommitted, Uncertain)
    ensures Holding(Apply(lib, db, CALLBACK), ContactCommitted, Uncertain)
    ensures 60 in Apply(lib, db, CALLBACK).evidence.incidents
  {
  }

  lemma CallbackFreezes()
    ensures Holding(Run(SampleLibrary(), FROZEN), ContactCommitted, Uncertain)
    ensures 60 in Run(SampleLibrary(), FROZEN).evidence.incidents
  {
    ContactHolds();
    StepExtends(SampleLibrary(), CONTACTED, CALLBACK);
    CallbackStep(SampleLibrary(), Run(SampleLibrary(), CONTACTED));
  }

  /** The repeated claim is what leaves that callback: it is rejected, its artifact being unreadable. */
  lemma RepeatedClaimIsRejected()
    ensures Claim(SampleLibrary(), Run(SampleLibrary(), CONTACTED), REPEATED).1.Err?
    ensures ValidationOf(SampleLibrary(), Run(SampleLibrary(), CONTACTED), REPEATED) == CALLBACK.validation
  {
    ContactHolds();
    assert Inspected(SampleLibrary(), Committed(SampleAttempt(), 60), 99) == (Rejected, None);
  }

  /**
   Contacted, then frozen by a rejected callback, then refused by the signer: the refusal's write is issued, the
   freeze guard refuses it, and the operation keeps its uncertain exposure.
   */
  lemma FrozenRefusalIsLost()
    ensures var db, answer := Run(SampleLibrary(), FROZEN), DoAccept(60, REFUSAL);
            && ProposalOf(SampleLibrary(), db, answer).Writes?
            && FreezeRefuses(db, ProposalOf(SampleLibrary(), db, answer).row)
            && Accept(SampleLibrary(), db, 60, REFUSAL) == (db, Err(Frozen))
            && 60 in db.operations.rows && db.operations.rows[60].exposureState.Uncertain?
  {
    CallbackFreezes();
    RefusalIsIssued(Run(SampleLibrary(), FROZEN));
  }

  lemma RefusalIsIssued(db: Db)
    requires Holding(db, ContactCommitted, Uncertain) && 60 in db.evidence.incidents
    ensures AcceptProposal(SampleLibrary(), db, 60, REFUSAL).Writes?
    ensures FreezeRefuses(db, AcceptProposal(SampleLibrary(), db, 60, REFUSAL).row)
  {
  }
}
