/** A run in which lowering a budget's limits leaves its family charged beyond them. */
module SponsorShrunkBudget {
  import opened Wrappers
  import opened SponsorTables
  import opened SponsorClaim
  import opened SponsorSteps
  import opened SponsorFences
  import opened SponsorLedger
  import opened SponsorBudgets
  import opened SponsorRuns
  import opened SponsorHistory

  function SampleLibrary(): Library {
    Library(_ => 100, (_, _) => 200, _ => 300, (_, _, _) => Some(200),
            (artifact, _, _, _) => if artifact == 99 then Unreadable else CustomerOnly(9), _ => true, _ => true)
  }

  const SPONSOR := Sponsor(5, 6, 7)

  const ENVELOPE := Envelope(AttemptIdentity(1, 1, 2, 1, 3), 4, SPONSOR, 8, 10, 8, 8, 8)

  const INSTALL := DoInstallBudget(SPONSOR, BudgetRequest(50, Charge(10, 10, 10, 1)), Some(Registered(0, false)), 0)

  const REGISTER := DoRegister(Registration(ENVELOPE, 11, 12, true))

  const CLAIM := ClaimRequest(60, 100, 61, 62, 63, true)

  const REVISE := DoReviseBudget(50, 1, BudgetRequest(51, Charge(5, 5, 5, 1)))

  function SampleBudgets(): Budgets {
    Budgets(map[50 := BudgetVersion(50, 1, SPONSOR, Charge(10, 10, 10, 1))],
            map[50 := BudgetHead(SPONSOR, 50, true, 1)], map[SPONSOR := 50])
  }

  function SampleAttempt(): Attempt { Attempt(ENVELOPE, 100, 200, 11, 12, Open, None) }

  function SampleAttempts(): Attempts {
    Attempts(map[1 := Head(4, 1)], map[Key(1, 1) := SampleAttempt()], map[100 := Key(1, 1)], {2}, {3}, {12})
  }

  function RegisteredDb(): Db { EMPTY.(attempts := SampleAttempts(), budgets := SampleBudgets()) }

  lemma BudgetIsInstalled()
    ensures Run(SampleLibrary(), [INSTALL]) == EMPTY.(budgets := SampleBudgets())
  {
    assert [INSTALL] == [] + [INSTALL];
    StepExtends(SampleLibrary(), [], INSTALL);
  }

  lemma AttemptIsRegistered()
    ensures Run(SampleLibrary(), [INSTALL, REGISTER]) == RegisteredDb()
  {
    BudgetIsInstalled();
    assert [INSTALL, REGISTER] == [INSTALL] + [REGISTER];
    StepExtends(SampleLibrary(), [INSTALL], REGISTER);
  }

  lemma NothingIsCharged()
    ensures FamilyCharge(RegisteredDb(), 50) == NOTHING && BudgetRefusal(RegisteredDb(), ENVELOPE).None?
  {
  }

  /** The first claim of a registered attempt, eligible and within the budget, creates its operation. */
  lemma ClaimIsCreated()
    ensures Claim(SampleLibrary(), RegisteredDb(), CLAIM).1.Ok?
    ensures Claim(SampleLibrary(), RegisteredDb(), CLAIM).1.value.disposition.Created?
    ensures Claim(SampleLibrary(), RegisteredDb(), CLAIM).0 != RegisteredDb()
  {
    var lib, db := SampleLibrary(), RegisteredDb();
    var a := SampleAttempt();
    NothingIsCharged();
    assert Inspected(lib, a, 62).1 == Some(9);
    assert CommitFence(FenceOf(a), TupleFor(lib, a, CLAIM, 9), 60).Some?;
    assert 60 in ClaimTuple(lib, db, CLAIM, Key(1, 1), a, TupleFor(lib, a, CLAIM, 9)).0.operations.rows;
  }

  function Claimed(): Db { Claim(SampleLibrary(), RegisteredDb(), CLAIM).0 }

  lemma ClaimIsRun()
    ensures Run(SampleLibrary(), [INSTALL, REGISTER, DoClaim(CLAIM)]) == Claimed()
    ensures Valid(SampleLibrary(), RegisteredDb()) && Valid(SampleLibrary(), Claimed())
  {
    AttemptIsRegistered();
    assert [INSTALL, REGISTER, DoClaim(CLAIM)] == [INSTALL, REGISTER] + [DoClaim(CLAIM)];
    StepExtends(SampleLibrary(), [INSTALL, REGISTER], DoClaim(CLAIM));
    RunValid(SampleLibrary(), [INSTALL, REGISTER]);
    RunValid(SampleLibrary(), [INSTALL, REGISTER, DoClaim(CLAIM)]);
  }

  lemma ClaimIsCharged()
    ensures Claimed().budgets == SampleBudgets() && FamilyCharge(Claimed(), 50) == Charge(8, 8, 8, 1)
    ensures FamilyFits(Claimed(), 50)
  {
    var lib, db := SampleLibrary(), RegisteredDb();
    ClaimIsRun();
    ClaimIsCreated();
    NothingIsCharged();
    ClaimEffect(lib, db, CLAIM);
    ClaimCharges(lib, db, CLAIM);
    assert Family(db.budgets, 50) == {50};
    ClaimedTotal(lib, db, CLAIM, {50});
  }

  lemma RevisionDoesNotCover(lib: Library, db: Db)
    requires Valid(lib, db) && db.budgets == SampleBudgets() && FamilyCharge(db, 50) == Charge(8, 8, 8, 1)
    requires FamilyFits(db, 50)
    ensures var next := Apply(lib, db, REVISE);
            && 50 in next.budgets.heads && next.budgets.heads[50].current == 51 && !FamilyFits(next, 50)
  {
    RevisionTakesEffect(lib, db);
    FamilyStaysWithinLimits(lib, db, REVISE, 50);
  }

  lemma RevisionTakesEffect(lib: Library, db: Db)
    requires db.budgets == SampleBudgets() && FamilyCharge(db, 50) == Charge(8, 8, 8, 1)
    ensures var next := Apply(lib, db, REVISE); 50 in next.budgets.heads && next.budgets.heads[50].current == 51
    ensures !Covers(db, REVISE, 50)
  {
  }

  const PREPARED: seq<Call> := [INSTALL, REGISTER]

  const CLAIMED: seq<Call> := [INSTALL, REGISTER, DoClaim(CLAIM)]

  /** Limits 10, a claim of 8, limits 5: the claim is created, the revision takes effect, and the family is beyond. */
  lemma ShrunkLimitsAreExceeded()
    ensures var reply := Claim(SampleLibrary(), Run(SampleLibrary(), PREPARED), CLAIM).1;
            reply.Ok? && reply.value.disposition.Created?
    ensures FamilyFits(Run(SampleLibrary(), CLAIMED), 50)
    ensures var shrunk := Run(SampleLibrary(), CLAIMED + [REVISE]);
            && 50 in shrunk.budgets.heads && shrunk.budgets.heads[50].current == 51 && !FamilyFits(shrunk, 50)
  {
    AttemptIsRegistered();
    ClaimIsCreated();
    ClaimIsRun();
    ClaimIsCharged();
    RevisionDoesNotCover(SampleLibrary(), Claimed());
    StepExtends(SampleLibrary(), CLAIMED, REVISE);
  }
}
