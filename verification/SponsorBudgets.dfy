/**
 The exposure budget a family of versions shares: what each call does to the charge, and that no reachable
 state charges a version beyond its limits.
 */
module SponsorBudgets {
  import opened Wrappers
  import opened SponsorTables
  import opened SponsorClaim
  import opened SponsorSteps
  import opened SponsorFences
  import opened SponsorLedger

  ghost predicate FamilyOk(b: Budgets, f: Id) {
    f in b.heads ==>
      && b.heads[f].current in b.versions && b.versions[b.heads[f].current].family == f && f in b.versions
      && b.heads[f].sponsor in b.bySponsor && b.bySponsor[b.heads[f].sponsor] == f
  }

  /** A version belongs to its family's sponsor, and only the current one is the newest. */
  ghost predicate VersionOk(b: Budgets, v: Id) {
    v in b.versions ==>
      && b.versions[v].family in b.heads && b.versions[v].sponsor == b.heads[b.versions[v].family].sponsor
      && b.heads[b.versions[v].family].current in b.versions
      && (v != b.heads[b.versions[v].family].current ==>
            b.versions[v].version < b.versions[b.heads[b.versions[v].family].current].version)
  }

  ghost predicate SponsorOk(b: Budgets, s: Sponsor) {
    s in b.bySponsor ==> b.bySponsor[s] in b.heads && b.heads[b.bySponsor[s]].sponsor == s
  }

  ghost predicate BudgetsOk(b: Budgets) {
    && (forall f {:trigger FamilyOk(b, f)} :: FamilyOk(b, f))
    && (forall v {:trigger VersionOk(b, v)} :: VersionOk(b, v))
    && (forall s {:trigger SponsorOk(b, s)} :: SponsorOk(b, s))
  }

  /** Every row is listed, and charged to a version of its own sponsor's family. */
  ghost predicate ChargedOk(o: Operations, b: Budgets, id: Id) {
    (id in o.rows ==>
       && id in o.order && o.rows[id].budgetId in b.versions
       && b.versions[o.rows[id].budgetId].sponsor == o.rows[id].tuple.sponsor
       && b.versions[o.rows[id].budgetId].version == o.rows[id].budgetVersion)
    && (id in o.order ==> id in o.rows)
  }

  ghost predicate VersionFits(db: Db, v: Id) {
    v in db.budgets.versions ==> Within(VersionCharge(db, v), db.budgets.versions[v].limits)
  }

  ghost predicate Apart(order: seq<Id>, i: int, j: int) { 0 <= i < j < |order| ==> order[i] != order[j] }

  ghost predicate NoRepeats(order: seq<Id>) { forall i, j {:trigger Apart(order, i, j)} :: Apart(order, i, j) }

  lemma FrontRepeatsNothing(order: seq<Id>)
    requires NoRepeats(order) && order != []
    ensures NoRepeats(order[..|order| - 1]) && order[|order| - 1] !in order[..|order| - 1]
  {
    var front := order[..|order| - 1];
    forall i, j ensures Apart(front, i, j) { assert Apart(order, i, j); }
    forall i | 0 <= i < |front| ensures front[i] != order[|order| - 1] { assert Apart(order, i, |order| - 1); }
  }

  lemma OneMoreRepeatsNothing(order: seq<Id>, id: Id)
    requires NoRepeats(order) && id !in order
    ensures NoRepeats(order + [id])
  {
    forall i, j ensures Apart(order + [id], i, j) { assert Apart(order, i, j); }
  }

  ghost predicate Charges(db: Db) {
    && BudgetsOk(db.budgets) && NoRepeats(db.operations.order)
    && (forall id {:trigger ChargedOk(db.operations, db.budgets, id)} :: ChargedOk(db.operations, db.budgets, id))
    && (forall v {:trigger VersionFits(db, v)} :: VersionFits(db, v))
  }

  // ---- totals ------------------------------------------------------------------------------------------

  lemma {:induction false} TotalOfSmaller(
    order: seq<Id>, rows: map<Id, Operation>, id: Id, p: Operation, scope: set<Id>)
    requires id in rows && p.budgetId == rows[id].budgetId && Within(Charged(p), Charged(rows[id]))
    ensures Within(Total(order, rows[id := p], scope), Total(order, rows, scope))
  {
    if order != [] { TotalOfSmaller(order[..|order| - 1], rows, id, p, scope); }
  }

  lemma {:induction false} TotalOfOthers(order: seq<Id>, rows: map<Id, Operation>, id: Id, p: Operation, scope: set<Id>)
    requires id !in order
    ensures Total(order, rows[id := p], scope) == Total(order, rows, scope)
  {
    if order != [] { TotalOfOthers(order[..|order| - 1], rows, id, p, scope); }
  }

  lemma TotalOfLast(order: seq<Id>, rows: map<Id, Operation>, id: Id, scope: set<Id>)
    ensures Total(order + [id], rows, scope) == Add(Total(order, rows, scope), Share(rows, id, scope))
  {
    var all := order + [id];
    assert all[..|all| - 1] == order && all[|all| - 1] == id;
  }

  lemma TotalOfMore(order: seq<Id>, rows: map<Id, Operation>, p: Operation, scope: set<Id>)
    requires p.id !in order
    ensures Total(order + [p.id], rows[p.id := p], scope)
            == Add(Total(order, rows, scope), Share(rows[p.id := p], p.id, scope))
  {
    TotalOfOthers(order, rows, p.id, p, scope);
    TotalOfLast(order, rows[p.id := p], p.id, scope);
  }

  lemma {:induction false} TotalOfWider(order: seq<Id>, rows: map<Id, Operation>, small: set<Id>, large: set<Id>)
    requires small <= large
    ensures Within(Total(order, rows, small), Total(order, rows, large))
  {
    if order != [] { TotalOfWider(order[..|order| - 1], rows, small, large); }
  }

  lemma {:induction false} TotalOfUnused(order: seq<Id>, rows: map<Id, Operation>, scope: set<Id>, unused: Id)
    requires forall id :: id in rows ==> rows[id].budgetId != unused
    ensures Total(order, rows, scope + {unused}) == Total(order, rows, scope)
  {
    if order != [] { TotalOfUnused(order[..|order| - 1], rows, scope, unused); }
  }

  /** A row restated in place moves the total by exactly the difference of its charges. */
  lemma {:induction false} TotalMoves(
    order: seq<Id>, rows: map<Id, Operation>, id: Id, p: Operation, scope: set<Id>)
    requires NoRepeats(order) && id in order && id in rows && p.budgetId == rows[id].budgetId && p.budgetId in scope
    ensures Add(Total(order, rows[id := p], scope), Charged(rows[id])) == Add(Total(order, rows, scope), Charged(p))
  {
    var front, last := order[..|order| - 1], order[|order| - 1];
    FrontRepeatsNothing(order);
    if last == id {
      TotalOfOthers(front, rows, id, p, scope);
    } else {
      TotalMoves(front, rows, id, p, scope);
    }
  }

  predicate Holds(o: Operation) { o.exposureState.Reserved? || o.exposureState.Uncertain? }

  /** The listed operations charged to `scope` that still hold what they requested. */
  function Holding(order: seq<Id>, rows: map<Id, Operation>, scope: set<Id>): set<Id> {
    set id | id in order && id in rows && rows[id].budgetId in scope && Holds(rows[id])
  }

  lemma {:induction false} OutstandingIsCount(order: seq<Id>, rows: map<Id, Operation>, scope: set<Id>)
    requires NoRepeats(order)
    ensures Total(order, rows, scope).outstanding == |Holding(order, rows, scope)|
  {
    if order != [] {
      var front, last := order[..|order| - 1], order[|order| - 1];
      FrontRepeatsNothing(order);
      OutstandingIsCount(front, rows, scope);
      assert order == front + [last];
      var now := if last in rows && rows[last].budgetId in scope && Holds(rows[last]) then {last} else {};
      assert Holding(order, rows, scope) == Holding(front, rows, scope) + now;
      assert Share(rows, last, scope).outstanding == |now|;
    }
  }

  // ---- administration ------------------------------------------------------------------------------------

  lemma InstallKeepsBudgets(db: Db, sponsor: Sponsor, r: BudgetRequest, network: Option<Registered>, now: nat)
    requires BudgetsOk(db.budgets)
    ensures BudgetsOk(InstallBudget(db, sponsor, r, network, now).0.budgets)
  {
    var b, c := db.budgets, InstallBudget(db, sponsor, r, network, now).0.budgets;
    forall f ensures FamilyOk(c, f) { assert FamilyOk(b, f); }
    forall v ensures VersionOk(c, v) { assert VersionOk(b, v); }
    forall s ensures SponsorOk(c, s) { assert SponsorOk(b, s); }
  }

  lemma StatusKeepsBudgets(db: Db, family: Id, expected: nat, active: bool)
    requires BudgetsOk(db.budgets)
    ensures BudgetsOk(SetBudgetStatus(db, family, expected, active).0.budgets)
  {
    var b, c := db.budgets, SetBudgetStatus(db, family, expected, active).0.budgets;
    forall f ensures FamilyOk(c, f) { assert FamilyOk(b, f); }
    forall v ensures VersionOk(c, v) { assert VersionOk(b, v); }
    forall s ensures SponsorOk(c, s) { assert SponsorOk(b, s); }
  }

  lemma ReviseKeepsBudgets(db: Db, family: Id, expected: nat, r: BudgetRequest)
    requires BudgetsOk(db.budgets)
    ensures BudgetsOk(ReviseBudget(db, family, expected, r).0.budgets)
  {
    var b, c := db.budgets, ReviseBudget(db, family, expected, r).0.budgets;
    assert FamilyOk(b, family);
    forall f ensures FamilyOk(c, f) { assert FamilyOk(b, f); }
    forall v ensures VersionOk(c, v) { assert VersionOk(b, v); }
    forall s ensures SponsorOk(c, s) { assert SponsorOk(b, s); }
  }

  /** Administration touches only the budgets, removes no version and changes none. */
  ghost predicate Administers(db: Db, next: Db) {
    && next == db.(budgets := next.budgets)
    && forall v :: v in db.budgets.versions ==>
         v in next.budgets.versions && next.budgets.versions[v] == db.budgets.versions[v]
  }

  lemma UnusedVersionIsFree(db: Db, v: Id)
    requires Charges(db) && v !in db.budgets.versions
    ensures VersionCharge(db, v) == NOTHING
  {
    forall id | id in db.operations.rows ensures db.operations.rows[id].budgetId != v {
      assert ChargedOk(db.operations, db.budgets, id);
    }
    TotalOfUnused(db.operations.order, db.operations.rows, {}, v);
    TotalOfNone(db.operations.order, db.operations.rows);
    assert {} + {v} == {v};
  }

  lemma {:induction false} TotalOfNone(order: seq<Id>, rows: map<Id, Operation>)
    ensures Total(order, rows, {}) == NOTHING
  {
    if order != [] {
      TotalOfNone(order[..|order| - 1], rows);
      assert Share(rows, order[|order| - 1], {}) == NOTHING;
    }
  }

  lemma AdministrationKeepsCharges(db: Db, next: Db)
    requires Charges(db) && Administers(db, next) && BudgetsOk(next.budgets)
    ensures Charges(next)
  {
    forall id ensures ChargedOk(next.operations, next.budgets, id) { assert ChargedOk(db.operations, db.budgets, id); }
    forall v ensures VersionFits(next, v) {
      assert VersionFits(db, v);
      if v !in db.budgets.versions { UnusedVersionIsFree(db, v); }
    }
  }

  // ---- claims and updates ------------------------------------------------------------------------------------

  /** The guard and the lifecycle let a charge shrink and never grow. */
  lemma ChargeNeverGrows(o: Operation, p: Operation)
    requires GuardAllows(o, p) && Lifecycle(o) && Lifecycle(p)
    ensures Within(Charged(p), Charged(o))
  {
    assert Fixed(p).requested == Fixed(o).requested;
  }

  /** Settling replaces the requested maximum by exactly what was observed, which never exceeds it. */
  lemma SettlementCharges(db: Db, id: Id, seen: Observation)
    requires Ledgers(db.operations, db.evidence) && Observe(db, id, seen).1.Ok?
    requires ApplyAccounting(Observe(db, id, seen).0, id, seen.accounting.reference).1.Ok?
    ensures var o := ApplyAccounting(Observe(db, id, seen).0, id, seen.accounting.reference).1.value;
            && id in db.operations.rows && o.exposureState.Consumed?
            && Charged(o) == Charge(seen.accounting.base, seen.accounting.priority, seen.accounting.rent, 0)
            && Within(Charged(o), o.requested) && o.requested == db.operations.rows[id].requested
  {
    assert LedgerOk(db.operations, db.evidence, id);
    assert EffectOk(db.operations, db.evidence, EffectKey(id, seen.accounting.reference));
  }

  lemma UpdateKeepsCharges(db: Db, next: Db, id: Id)
    requires Charges(db) && Ledgers(db.operations, db.evidence) && Moved(db, next, id)
    ensures Charges(next)
    ensures forall scope :: Within(Total(next.operations.order, next.operations.rows, scope),
                                   Total(db.operations.order, db.operations.rows, scope))
  {
    if next != db {
      var o, p := db.operations.rows[id], next.operations.rows[id];
      assert LedgerOk(db.operations, db.evidence, id);
      ChargeNeverGrows(o, p);
      assert Fixed(p).budgetId == Fixed(o).budgetId && Fixed(p).tuple == Fixed(o).tuple;
      assert Fixed(p).budgetVersion == Fixed(o).budgetVersion;
      forall scope ensures Within(Total(next.operations.order, next.operations.rows, scope),
                                  Total(db.operations.order, db.operations.rows, scope))
      {
        TotalOfSmaller(db.operations.order, db.operations.rows, id, p, scope);
      }
      forall j ensures ChargedOk(next.operations, next.budgets, j) { assert ChargedOk(db.operations, db.budgets, j); }
      forall v ensures VersionFits(next, v) {
        assert VersionFits(db, v);
        TotalOfSmaller(db.operations.order, db.operations.rows, id, p, {v});
      }
    }
  }

  ghost predicate FamilyFits(db: Db, f: Id) {
    f in db.budgets.heads && db.budgets.heads[f].current in db.budgets.versions ==>
      Within(FamilyCharge(db, f), db.budgets.versions[db.budgets.heads[f].current].limits)
  }

  /** The capacity trigger of the finalizations table, run for one written row. */
  ghost predicate CapacityAllows(db: Db, o: Operation, inserted: bool) {
    && o.budgetId in db.budgets.versions
    && var v := db.budgets.versions[o.budgetId];
       && v.family in db.budgets.heads && v.sponsor == o.tuple.sponsor
       && Within(VersionCharge(db, o.budgetId), v.limits)
       && (inserted ==> db.budgets.heads[v.family].active && db.budgets.heads[v.family].current == o.budgetId
                        && Within(FamilyCharge(db, v.family), v.limits))
  }

  /** What a new operation is charged to: the current, active version of its sponsor's family, within its limits. */
  lemma ClaimCharges(lib: Library, db: Db, r: ClaimRequest)
    requires AttemptsOk(db.attempts) && BudgetsOk(db.budgets) && Claim(lib, db, r).0 != db
    ensures Claim(lib, db, r).1.Ok?
    ensures var o, b := Claim(lib, db, r).1.value.operation, db.budgets;
            && o.budgetId in b.versions && b.versions[o.budgetId].sponsor == o.tuple.sponsor
            && o.budgetVersion == b.versions[o.budgetId].version && Charged(o) == o.requested
            && var f := b.versions[o.budgetId].family;
               && f in b.heads && b.heads[f].active && b.heads[f].current == o.budgetId
               && b.bySponsor[o.tuple.sponsor] == f
               && Within(Add(FamilyCharge(db, f), Charged(o)), b.versions[o.budgetId].limits)
  {
    ClaimEffect(lib, db, r);
    var key := db.attempts.byDigest[r.envelopeDigest];
    var a := db.attempts.rows[key];
    var tuple := TupleFor(lib, a, r, Inspected(lib, a, r.artifact).1.value);
    ClaimTupleEffect(lib, db, r, key, a, tuple);
    assert SponsorOk(db.budgets, a.envelope.sponsor);
    assert FamilyOk(db.budgets, db.budgets.bySponsor[a.envelope.sponsor]);
    assert VersionOk(db.budgets, db.budgets.heads[db.budgets.bySponsor[a.envelope.sponsor]].current);
  }

  lemma ClaimedTotal(lib: Library, db: Db, r: ClaimRequest, scope: set<Id>)
    requires AttemptsOk(db.attempts) && Charges(db) && Claim(lib, db, r).0 != db
    ensures Claim(lib, db, r).1.Ok?
    ensures var next, o := Claim(lib, db, r).0, Claim(lib, db, r).1.value.operation;
            Total(next.operations.order, next.operations.rows, scope)
            == Add(Total(db.operations.order, db.operations.rows, scope),
                   if o.budgetId in scope then Charged(o) else NOTHING)
  {
    ClaimEffect(lib, db, r);
    assert ChargedOk(db.operations, db.budgets, r.id);
    InsertedTotal(db.operations, Claim(lib, db, r).1.value.operation, scope);
  }

  lemma InsertedTotal(s: Operations, o: Operation, scope: set<Id>)
    requires o.id !in s.order
    ensures var t := InsertOperation(s, o);
            Total(t.order, t.rows, scope)
            == Add(Total(s.order, s.rows, scope), if o.budgetId in scope then Charged(o) else NOTHING)
  {
    TotalOfMore(s.order, s.rows, o, scope);
    assert Share(s.rows[o.id := o], o.id, scope) == if o.budgetId in scope then Charged(o) else NOTHING;
  }

  /** A successful claim leaves its whole family within the current limits, so no capacity check refuses it. */
  lemma ClaimFitsFamily(lib: Library, db: Db, r: ClaimRequest)
    requires AttemptsOk(db.attempts) && Charges(db) && Claim(lib, db, r).0 != db
    ensures Claim(lib, db, r).1.Ok?
    ensures var next, o := Claim(lib, db, r).0, Claim(lib, db, r).1.value.operation;
            && FamilyFits(next, db.budgets.bySponsor[o.tuple.sponsor]) && CapacityAllows(next, o, true)
  {
    var next, o := Claim(lib, db, r).0, Claim(lib, db, r).1.value.operation;
    ClaimEffect(lib, db, r);
    ClaimCharges(lib, db, r);
    var f := db.budgets.versions[o.budgetId].family;
    ClaimedTotal(lib, db, r, Family(db.budgets, f));
    VersionWithinFamily(next, o.budgetId, f);
  }

  lemma VersionWithinFamily(db: Db, v: Id, f: Id)
    requires v in db.budgets.versions && db.budgets.versions[v].family == f
    ensures Within(VersionCharge(db, v), FamilyCharge(db, f))
  {
    TotalOfWider(db.operations.order, db.operations.rows, {v}, Family(db.budgets, f));
  }

  lemma ClaimKeepsCharges(lib: Library, db: Db, r: ClaimRequest)
    requires AttemptsOk(db.attempts) && Charges(db)
    ensures Charges(Claim(lib, db, r).0)
  {
    var next := Claim(lib, db, r).0;
    if next != db {
      var o := Claim(lib, db, r).1.value.operation;
      ClaimEffect(lib, db, r);
      ClaimCharges(lib, db, r);
      ClaimFitsFamily(lib, db, r);
      assert ChargedOk(db.operations, db.budgets, r.id);
      OneMoreRepeatsNothing(db.operations.order, r.id);
      forall id ensures ChargedOk(next.operations, next.budgets, id) {
        assert ChargedOk(db.operations, db.budgets, id);
      }
      forall v ensures VersionFits(next, v) {
        assert VersionFits(db, v);
        ClaimedTotal(lib, db, r, {v});
      }
    }
  }
}
