/** Whole runs of sponsor finalization: what holds in every reachable state, and what no later call undoes. */
module SponsorRuns {
  import opened Wrappers
  import opened SponsorTables
  import opened SponsorClaim
  import opened SponsorSteps
  import opened SponsorFences
  import opened SponsorLedger
  import opened SponsorBudgets

  ghost predicate Valid(lib: Library, db: Db) {
    Fenced(lib, db) && Ledgers(db.operations, db.evidence) && Charges(db)
  }

  lemma EmptyIsValid(lib: Library)
    ensures Valid(lib, EMPTY)
  {
  }

  // ---- each call keeps it ----------------------------------------------------------------------------------

  lemma SameOperationsKeepCharges(db: Db, next: Db)
    requires Charges(db) && next.operations == db.operations && next.budgets == db.budgets
    ensures Charges(next)
  {
    forall v ensures VersionFits(next, v) { assert VersionFits(db, v); }
  }

  lemma TargetedProposes(lib: Library, db: Db, c: Call)
    requires Ledgers(db.operations, db.evidence) && Target(c).Some?
    ensures Proposes(db, Target(c).value, ProposalOf(lib, db, c))
  {
    match c
    case DoCommitContact(id, a) => ContactProposes(db, id, a);
    case DoRecordUnknown(id) => UnknownProposes(db, id);
    case DoAccept(id, response) => AcceptProposes(lib, db, id, response);
    case DoExpire(id, a) => ExpiryProposes(db, id, a);
    case DoApplyAccounting(id, reference) => AccountingProposes(db, id, reference);
  }

  lemma TargetedIsJudged(lib: Library, db: Db, c: Call)
    requires Target(c).Some?
    ensures Apply(lib, db, c) == Judged(db, ProposalOf(lib, db, c)).0
  {
  }

  lemma TargetedMoves(lib: Library, db: Db, c: Call)
    requires Ledgers(db.operations, db.evidence) && Target(c).Some?
    ensures Moved(db, Apply(lib, db, c), Target(c).value)
  {
    TargetedProposes(lib, db, c);
    TargetedIsJudged(lib, db, c);
  }

  lemma TargetedValid(lib: Library, db: Db, c: Call)
    requires Valid(lib, db) && Target(c).Some?
    ensures Valid(lib, Apply(lib, db, c))
  {
    TargetedMoves(lib, db, c);
    MovedKeeps(db, Apply(lib, db, c), Target(c).value);
    RestatingKeepsFences(lib, db, Apply(lib, db, c));
    UpdateKeepsCharges(db, Apply(lib, db, c), Target(c).value);
  }

  predicate OnlyEvidence(c: Call) {
    c.DoRecordCallback? || c.DoRecordIncident? || c.DoObservePossible? || c.DoObserve?
  }

  lemma EvidenceValid(lib: Library, db: Db, c: Call)
    requires Valid(lib, db) && OnlyEvidence(c)
    ensures Valid(lib, Apply(lib, db, c)) && Apply(lib, db, c) == db.(evidence := Apply(lib, db, c).evidence)
  {
    var next := Apply(lib, db, c);
    if c.DoObserve? {
      ObserveKeeps(db, c.id, c.observation);
    } else if c.DoObservePossible? {
      ObservePossibleKeeps(db, c.id, c.reference, c.network, c.transaction);
    } else {
      if c.DoRecordCallback? && c.envelopeDigest in db.attempts.byDigest {
        assert IndexOk(db.operations, db.attempts.byDigest[c.envelopeDigest]);
      }
      EvidenceKeeps(db, next);
    }
    SameOperationsKeepCharges(db, next);
  }

  lemma BudgetValid(lib: Library, db: Db, c: Call)
    requires Valid(lib, db) && BudgetCall(c)
    ensures Valid(lib, Apply(lib, db, c)) && Administers(db, Apply(lib, db, c))
  {
    if c.DoInstallBudget? { InstallKeepsBudgets(db, c.sponsor, c.request, c.registered, c.now); }
    else if c.DoSetBudgetStatus? { StatusKeepsBudgets(db, c.family, c.expected, c.active); }
    else { ReviseKeepsBudgets(db, c.family, c.expected, c.request); }
    AdministrationKeepsCharges(db, Apply(lib, db, c));
  }

  lemma AttemptValid(lib: Library, db: Db, c: Call)
    requires Valid(lib, db) && (c.DoRegister? || c.DoCancel? || c.DoClaim?)
    ensures Valid(lib, Apply(lib, db, c))
  {
    if c.DoRegister? {
      RegisterKeepsFences(lib, db, c.registration);
      SameOperationsKeepCharges(db, Apply(lib, db, c));
    } else if c.DoCancel? {
      CancelKeepsFences(lib, db, c.key, c.fenceToken, c.principal);
      SameOperationsKeepCharges(db, Apply(lib, db, c));
    } else {
      ClaimKeepsFences(lib, db, c.claim);
      ClaimKeepsLedgers(lib, db, c.claim);
      ClaimKeepsCharges(lib, db, c.claim);
    }
  }

  lemma ApplyValid(lib: Library, db: Db, c: Call)
    requires Valid(lib, db)
    ensures Valid(lib, Apply(lib, db, c))
  {
    if Target(c).Some? { TargetedValid(lib, db, c); }
    else if OnlyEvidence(c) { EvidenceValid(lib, db, c); }
    else if BudgetCall(c) { BudgetValid(lib, db, c); }
    else { AttemptValid(lib, db, c); }
  }

  lemma {:induction false} RunValid(lib: Library, calls: seq<Call>)
    ensures Valid(lib, Run(lib, calls))
  {
    if calls == [] { EmptyIsValid(lib); }
    else {
      RunValid(lib, calls[..|calls| - 1]);
      ApplyValid(lib, Run(lib, calls[..|calls| - 1]), calls[|calls| - 1]);
    }
  }

  // ---- every reachable state ----------------------------------------------------------------------------------

  /** Below the current generation everything is cancelled and unfinalized; generations have no gaps. */
  lemma LowerGenerationsAreCancelled(lib: Library, calls: seq<Call>, k: Key)
    requires k in Run(lib, calls).attempts.rows
    ensures var s := Run(lib, calls).attempts;
            && k.intent in s.heads && 1 <= k.generation <= s.heads[k.intent].current
            && (k.generation > 1 ==> Key(k.intent, k.generation - 1) in s.rows)
            && (k.generation < s.heads[k.intent].current ==>
                  s.rows[k].state.Cancelled? && s.rows[k].finalizationId.None?
                  && k !in Run(lib, calls).operations.byGeneration)
  {
    var db := Run(lib, calls);
    RunValid(lib, calls);
    assert AttemptOk(db.attempts, k);
    ClaimedIsCommitted(lib, db.attempts, db.operations, k);
  }

  lemma ClaimedIsCommitted(lib: Library, s: Attempts, o: Operations, k: Key)
    requires OperationsOk(lib, s, o)
    ensures k in o.byGeneration ==>
              && k in s.rows && s.rows[k].state.FinalizationCommitted?
              && s.rows[k].finalizationId == Some(o.byGeneration[k])
              && o.byGeneration[k] in o.rows && o.rows[o.byGeneration[k]].key == k
              && Binding(lib, s.rows[k], o.rows[o.byGeneration[k]])
  {
    if k in o.byGeneration { assert IndexOk(o, k) && RowOk(lib, s, o, o.byGeneration[k]); }
  }

  /** An attempt is committed exactly when it names a finalization, which then is the row of that attempt. */
  lemma FinalizationIffCommitted(lib: Library, db: Db, k: Key)
    requires Valid(lib, db) && k in db.attempts.rows
    ensures var a := db.attempts.rows[k];
            && (a.state.FinalizationCommitted? <==> k in db.operations.byGeneration)
            && (k in db.operations.byGeneration ==>
                  a.finalizationId == Some(db.operations.byGeneration[k])
                  && db.operations.byGeneration[k] in db.operations.rows
                  && Binding(lib, a, db.operations.rows[db.operations.byGeneration[k]]))
            && (k !in db.operations.byGeneration ==> a.finalizationId.None?)
  {
    assert AttemptOk(db.attempts, k) && FinalizationOk(db.attempts, db.operations, k);
    ClaimedIsCommitted(lib, db.attempts, db.operations, k);
    if db.attempts.rows[k].finalizationId.Some? {
      assert RowOk(lib, db.attempts, db.operations, db.attempts.rows[k].finalizationId.value);
    }
  }

  /** An intent has at most one finalization, whatever generations it went through. */
  lemma OneFinalizationPerIntent(lib: Library, calls: seq<Call>, i: Id, j: Id)
    requires i in Run(lib, calls).operations.rows && j in Run(lib, calls).operations.rows
    requires Run(lib, calls).operations.rows[i].key.intent == Run(lib, calls).operations.rows[j].key.intent
    ensures i == j
  {
    var db := Run(lib, calls);
    RunValid(lib, calls);
    FinalizedIsCurrent(lib, db, i);
    FinalizedIsCurrent(lib, db, j);
  }

  lemma FinalizedIsCurrent(lib: Library, db: Db, id: Id)
    requires Valid(lib, db) && id in db.operations.rows
    ensures var s, k := db.attempts, db.operations.rows[id].key;
            && k.intent in s.heads && k == Key(k.intent, s.heads[k.intent].current)
            && k in s.rows && s.rows[k].finalizationId == Some(id)
  {
    assert RowOk(lib, db.attempts, db.operations, id) && AttemptOk(db.attempts, db.operations.rows[id].key);
  }

  /** The lifecycle check and the ledgers agree on every row; a refusal or an expiry has released the exposure. */
  lemma StatesAgreeWithLedgers(lib: Library, db: Db, id: Id)
    requires Valid(lib, db) && id in db.operations.rows
    ensures var o, v := db.operations.rows[id], db.evidence;
            && Lifecycle(o) && (id in v.contacts <==> Contacted(o.signerState))
            && (id in v.expiries <==> o.signerState.ExpiredNeverContacted?)
            && (o.signerState.SignerRefused? || o.signerState.ExpiredNeverContacted? ==>
                  o.exposureState.Released? && Charged(o) == NOTHING)
            && !(id in v.contacts && id in v.expiries)
            && (HasEffect(v, id) ==> !o.signerState.ExpiredNeverContacted?)
            && (HasAccounting(v, id) ==> o.signerState.ResultAvailable?)
  {
    assert LedgerOk(db.operations, db.evidence, id);
    forall k | k in db.evidence.effects && k.finalizationId == id
      ensures !db.operations.rows[id].signerState.ExpiredNeverContacted?
      ensures db.evidence.effects[k].FinalizedAccounting? ==> db.operations.rows[id].signerState.ResultAvailable?
    {
      assert EffectOk(db.operations, db.evidence, k);
    }
  }

  /** No version is ever charged beyond its own limits. */
  lemma VersionsStayWithinLimits(lib: Library, calls: seq<Call>, v: Id)
    requires v in Run(lib, calls).budgets.versions
    ensures Within(VersionCharge(Run(lib, calls), v), Run(lib, calls).budgets.versions[v].limits)
  {
    RunValid(lib, calls);
    assert VersionFits(Run(lib, calls), v);
  }

  /** A claim that created an operation left the whole family within the current version's limits. */
  lemma CreatedClaimFitsFamily(lib: Library, calls: seq<Call>, r: ClaimRequest)
    requires Claim(lib, Run(lib, calls), r).1.Ok? && Claim(lib, Run(lib, calls), r).1.value.disposition.Created?
    ensures var next, o := Claim(lib, Run(lib, calls), r).0, Claim(lib, Run(lib, calls), r).1.value.operation;
            && o.budgetId in next.budgets.versions
            && var f := next.budgets.versions[o.budgetId].family;
               && f in next.budgets.heads && next.budgets.heads[f].active && next.budgets.heads[f].current == o.budgetId
               && Within(FamilyCharge(next, f), next.budgets.versions[o.budgetId].limits)
  {
    var db := Run(lib, calls);
    RunValid(lib, calls);
    CreatedWrites(lib, db, r);
    ClaimFitsFamily(lib, db, r);
    ClaimCharges(lib, db, r);
  }

  lemma CreatedWrites(lib: Library, db: Db, r: ClaimRequest)
    requires Valid(lib, db) && Claim(lib, db, r).1.Ok? && Claim(lib, db, r).1.value.disposition.Created?
    ensures Claim(lib, db, r).0 != db
  {
    assert r.id in Claim(lib, db, r).0.operations.rows;
  }

  // ---- the family charge over a whole run -------------------------------------------------------------------

  /** Revising, installing and switching budgets never change what an existing family is charged. */
  lemma AdministrationKeepsFamilyCharge(lib: Library, db: Db, c: Call, f: Id)
    requires Valid(lib, db) && BudgetCall(c)
    ensures FamilyCharge(Apply(lib, db, c), f) == FamilyCharge(db, f)
  {
    var before, after := Family(db.budgets, f), Family(Apply(lib, db, c).budgets, f);
    if after != before {
      var unused := c.request.budgetId;
      assert unused !in db.budgets.versions && after == before + {unused};
      UnusedAddsNothing(db, before, unused);
    }
  }

  lemma UnusedAddsNothing(db: Db, scope: set<Id>, unused: Id)
    requires Charges(db) && unused !in db.budgets.versions
    ensures Total(db.operations.order, db.operations.rows, scope + {unused})
            == Total(db.operations.order, db.operations.rows, scope)
  {
    forall id | id in db.operations.rows ensures db.operations.rows[id].budgetId != unused {
      assert ChargedOk(db.operations, db.budgets, id);
    }
    TotalOfUnused(db.operations.order, db.operations.rows, scope, unused);
  }

  /** A revision that takes effect covers what its family is charged at that moment. */
  predicate Covers(db: Db, c: Call, f: Id) {
    c.DoReviseBudget? && c.family == f && ReviseBudget(db, f, c.expected, c.request).1.Ok? ==>
      Within(FamilyCharge(db, f), c.request.limits)
  }

  /** Only a revision that does not cover the charge can push a family beyond its current limits. */
  lemma FamilyStaysWithinLimits(lib: Library, db: Db, c: Call, f: Id)
    requires Valid(lib, db) && FamilyFits(db, f)
    ensures FamilyFits(Apply(lib, db, c), f) <==> Covers(db, c, f)
  {
    var next := Apply(lib, db, c);
    ApplyValid(lib, db, c);
    if BudgetCall(c) {
      BudgetFamilyFits(lib, db, c, f);
    } else if c.DoClaim? && next != db {
      ClaimFamilyFits(lib, db, c.claim, f);
    } else if Target(c).Some? {
      TargetedFamilyFits(lib, db, c, f);
    }
  }

  lemma TargetedFamilyFits(lib: Library, db: Db, c: Call, f: Id)
    requires Valid(lib, db) && FamilyFits(db, f) && Target(c).Some?
    ensures FamilyFits(Apply(lib, db, c), f)
  {
    TargetedMoves(lib, db, c);
    MovedKeeps(db, Apply(lib, db, c), Target(c).value);
    UpdateKeepsCharges(db, Apply(lib, db, c), Target(c).value);
  }

  lemma BudgetFamilyFits(lib: Library, db: Db, c: Call, f: Id)
    requires Valid(lib, db) && FamilyFits(db, f) && BudgetCall(c)
    ensures FamilyFits(Apply(lib, db, c), f) <==> Covers(db, c, f)
  {
    AdministrationKeepsFamilyCharge(lib, db, c, f);
    if c.DoReviseBudget? { RevisedFits(lib, db, c, f); } else { UnrevisedFits(lib, db, c, f); }
  }

  lemma RevisedFits(lib: Library, db: Db, c: Call, f: Id)
    requires Valid(lib, db) && FamilyFits(db, f) && c.DoReviseBudget?
    requires FamilyCharge(Apply(lib, db, c), f) == FamilyCharge(db, f)
    ensures FamilyFits(Apply(lib, db, c), f) <==> Covers(db, c, f)
  {
    assert FamilyOk(db.budgets, f);
  }

  lemma UnrevisedFits(lib: Library, db: Db, c: Call, f: Id)
    requires Valid(lib, db) && FamilyFits(db, f) && (c.DoInstallBudget? || c.DoSetBudgetStatus?)
    requires FamilyCharge(Apply(lib, db, c), f) == FamilyCharge(db, f)
    ensures FamilyFits(Apply(lib, db, c), f)
  {
    assert FamilyOk(db.budgets, f);
    if c.DoInstallBudget? && f !in db.budgets.heads { NoFamilyNoCharge(db, f); }
  }

  lemma NoFamilyNoCharge(db: Db, f: Id)
    requires Charges(db) && f !in db.budgets.heads
    ensures FamilyCharge(db, f) == NOTHING
  {
    forall v ensures v !in Family(db.budgets, f) { assert VersionOk(db.budgets, v); }
    assert Family(db.budgets, f) == {};
    TotalOfNone(db.operations.order, db.operations.rows);
  }

  lemma ClaimFamilyFits(lib: Library, db: Db, r: ClaimRequest, f: Id)
    requires Valid(lib, db) && Claim(lib, db, r).0 != db && FamilyFits(db, f)
    ensures FamilyFits(Claim(lib, db, r).0, f)
  {
    ClaimEffect(lib, db, r);
    ClaimCharges(lib, db, r);
    if f == db.budgets.bySponsor[Claim(lib, db, r).1.value.operation.tuple.sponsor] {
      ClaimFitsFamily(lib, db, r);
    } else {
      OtherFamilyUncharged(lib, db, r, f);
    }
  }

  lemma OtherFamilyUncharged(lib: Library, db: Db, r: ClaimRequest, f: Id)
    requires Valid(lib, db) && Claim(lib, db, r).0 != db && Claim(lib, db, r).1.Ok?
    requires var o := Claim(lib, db, r).1.value.operation;
             o.budgetId in db.budgets.versions && db.budgets.versions[o.budgetId].family != f
    requires Claim(lib, db, r).0.budgets == db.budgets
    ensures FamilyCharge(Claim(lib, db, r).0, f) == FamilyCharge(db, f)
  {
    var o := Claim(lib, db, r).1.value.operation;
    ClaimedTotal(lib, db, r, Family(db.budgets, f));
    assert o.budgetId !in Family(db.budgets, f);
    AddNothing(Total(db.operations.order, db.operations.rows, Family(db.budgets, f)));
  }

  lemma AddNothing(c: Charge)
    ensures Add(c, NOTHING) == c
  {
  }

  ghost predicate FitsThroughout(lib: Library, calls: seq<Call>, f: Id) {
    forall n {:trigger calls[..n]} :: 0 <= n <= |calls| ==> FamilyFits(Run(lib, calls[..n]), f)
  }

  ghost predicate CoversThroughout(lib: Library, calls: seq<Call>, f: Id) {
    forall n {:trigger calls[..n]} :: 0 <= n < |calls| ==> Covers(Run(lib, calls[..n]), calls[n], f)
  }

  lemma Throughout(lib: Library, calls: seq<Call>, f: Id)
    requires calls != []
    ensures var front, last := calls[..|calls| - 1], calls[|calls| - 1];
            && (FitsThroughout(lib, calls, f) <==> FitsThroughout(lib, front, f) && FamilyFits(Run(lib, calls), f))
            && (CoversThroughout(lib, calls, f)
                <==> CoversThroughout(lib, front, f) && Covers(Run(lib, front), last, f))
  {
    var front := calls[..|calls| - 1];
    assert calls[..|calls|] == calls;
    assert forall n {:trigger calls[..n]} {:trigger front[..n]} :: 0 <= n <= |front| ==> calls[..n] == front[..n];
  }

  /** A family is within its current limits in every state of a run iff each revision covered its charge. */
  lemma {:induction false} FitsThroughoutIff(lib: Library, calls: seq<Call>, f: Id)
    ensures FitsThroughout(lib, calls, f) <==> CoversThroughout(lib, calls, f)
  {
    if calls != [] {
      var front, last := calls[..|calls| - 1], calls[|calls| - 1];
      Throughout(lib, calls, f);
      FitsThroughoutIff(lib, front, f);
      RunValid(lib, front);
      assert front[..|front|] == front;
      if FitsThroughout(lib, front, f) { FamilyStaysWithinLimits(lib, Run(lib, front), last, f); }
    }
  }

  predicate KeepsLimits(db: Db, c: Call) {
    c.DoReviseBudget? && c.family in db.budgets.heads && db.budgets.heads[c.family].current in db.budgets.versions ==>
      Within(db.budgets.versions[db.budgets.heads[c.family].current].limits, c.request.limits)
  }

  ghost predicate NeverShrinks(lib: Library, calls: seq<Call>) {
    forall n {:trigger calls[..n]} :: 0 <= n < |calls| ==> KeepsLimits(Run(lib, calls[..n]), calls[n])
  }

  /** If no revision ever lowers a limit, every family is within its current limits in every reachable state. */
  lemma {:induction false} FamiliesStayWithinLimits(lib: Library, calls: seq<Call>, f: Id)
    requires NeverShrinks(lib, calls)
    ensures FamilyFits(Run(lib, calls), f)
  {
    if calls != [] {
      var front, last := calls[..|calls| - 1], calls[|calls| - 1];
      assert KeepsLimits(Run(lib, calls[..|calls| - 1]), last);
      forall n | 0 <= n < |front| ensures KeepsLimits(Run(lib, front[..n]), front[n]) {
        assert front[..n] == calls[..n] && KeepsLimits(Run(lib, calls[..n]), calls[n]);
      }
      FamiliesStayWithinLimits(lib, front, f);
      RunValid(lib, front);
      KeptLimitsCover(Run(lib, front), last, f);
      FamilyStaysWithinLimits(lib, Run(lib, front), last, f);
    }
  }

  lemma KeptLimitsCover(db: Db, c: Call, f: Id)
    requires KeepsLimits(db, c) && FamilyFits(db, f)
    ensures Covers(db, c, f)
  {
  }
}
