/** What no later call undoes: fences once closed, signer results, ledgers; and the claim as the pure decision. */
module SponsorHistory {
  import opened Wrappers
  import opened SponsorTables
  import opened SponsorClaim
  import opened SponsorSteps
  import opened SponsorFences
  import opened SponsorLedger
  import opened SponsorBudgets
  import opened SponsorRuns

  /** An attempt's identity never changes, and a cancelled or committed one not at all. */
  ghost predicate KeepsAttempt(s: Attempts, t: Attempts, k: Key) {
    k in s.rows ==>
      && k in t.rows && t.rows[k].envelope == s.rows[k].envelope && t.rows[k].digest == s.rows[k].digest
      && t.rows[k].messageDigest == s.rows[k].messageDigest
      && (!s.rows[k].state.Open? ==> t.rows[k] == s.rows[k])
  }

  ghost predicate KeepsHead(s: Attempts, t: Attempts, i: Id) {
    i in s.heads ==>
      i in t.heads && t.heads[i].principal == s.heads[i].principal && t.heads[i].current >= s.heads[i].current
  }

  /** Signer results and closed exposures are permanent; a contacted operation stays contacted. */
  predicate Later(o: Operation, p: Operation) {
    && Fixed(p) == Fixed(o) && p.version >= o.version && (o.signerState.ExpiredNeverContacted? ==> p == o)
    && (o.signerState.SignerRefused? || o.signerState.ResultAvailable? ==>
          p.signerState == o.signerState && p.signed == o.signed && p.refusal == o.refusal)
    && (o.exposureState.Released? || o.exposureState.Consumed? ==>
          p.exposureState == o.exposureState && p.consumed == o.consumed)
    && (Contacted(o.signerState) ==> Contacted(p.signerState))
  }

  ghost predicate KeepsRow(o: Operations, p: Operations, id: Id) {
    id in o.rows ==> id in p.rows && Later(o.rows[id], p.rows[id])
  }

  ghost predicate KeepsEvidence(v: Evidence, w: Evidence) {
    && (forall id :: id in v.contacts ==> id in w.contacts && w.contacts[id] == v.contacts[id])
    && v.callbacks <= w.callbacks && v.incidents <= w.incidents
    && (forall id :: id in v.expiries ==> id in w.expiries && w.expiries[id] == v.expiries[id])
    && (forall k :: k in v.effects ==> k in w.effects && w.effects[k] == v.effects[k])
  }

  /** A family keeps its sponsor, and its administrative revision never goes back. */
  ghost predicate KeepsFamily(b: Budgets, c: Budgets, f: Id) {
    f in b.heads ==>
      f in c.heads && c.heads[f].sponsor == b.heads[f].sponsor && c.heads[f].revision >= b.heads[f].revision
  }

  ghost predicate Extends(db: Db, next: Db) {
    && (forall f {:trigger KeepsFamily(db.budgets, next.budgets, f)} :: KeepsFamily(db.budgets, next.budgets, f))
    && (forall k {:trigger KeepsAttempt(db.attempts, next.attempts, k)} :: KeepsAttempt(db.attempts, next.attempts, k))
    && (forall i {:trigger KeepsHead(db.attempts, next.attempts, i)} :: KeepsHead(db.attempts, next.attempts, i))
    && (forall id {:trigger KeepsRow(db.operations, next.operations, id)} ::
          KeepsRow(db.operations, next.operations, id))
    && KeepsEvidence(db.evidence, next.evidence)
  }

  lemma SameTablesExtend(db: Db, next: Db)
    requires next == db.(evidence := next.evidence, budgets := next.budgets)
    requires KeepsEvidence(db.evidence, next.evidence)
    requires forall f {:trigger KeepsFamily(db.budgets, next.budgets, f)} :: KeepsFamily(db.budgets, next.budgets, f)
    ensures Extends(db, next)
  {
  }

  lemma TransitionIsLater(o: Operation, p: Operation)
    requires GuardAllows(o, p) && Lifecycle(o)
    ensures Later(o, p)
  {
  }

  lemma MovedExtends(db: Db, next: Db, id: Id)
    requires Ledgers(db.operations, db.evidence) && Moved(db, next, id)
    requires KeepsEvidence(db.evidence, next.evidence)
    ensures Extends(db, next)
  {
    if next != db {
      assert LedgerOk(db.operations, db.evidence, id);
      TransitionIsLater(db.operations.rows[id], next.operations.rows[id]);
    }
  }

  lemma TargetedExtends(lib: Library, db: Db, c: Call)
    requires Valid(lib, db) && Target(c).Some?
    ensures Extends(db, Apply(lib, db, c))
  {
    TargetedMoves(lib, db, c);
    TargetedKeepsEvidence(lib, db, c);
    MovedExtends(db, Apply(lib, db, c), Target(c).value);
  }

  lemma TargetedKeepsEvidence(lib: Library, db: Db, c: Call)
    requires Valid(lib, db) && Target(c).Some?
    ensures KeepsEvidence(db.evidence, Apply(lib, db, c).evidence)
  {
    TargetedMoves(lib, db, c);
    MovedKeepsEvidence(db, Apply(lib, db, c), Target(c).value);
  }

  lemma MovedKeepsEvidence(db: Db, next: Db, id: Id)
    requires Ledgers(db.operations, db.evidence) && Moved(db, next, id)
    ensures KeepsEvidence(db.evidence, next.evidence)
  {
    assert LedgerOk(db.operations, db.evidence, id);
    if next != db { TransitionIsLater(db.operations.rows[id], next.operations.rows[id]); }
  }

  lemma InsertExtends(s: Attempts, head: Head, a: Attempt)
    requires KeyOf(a.envelope) !in s.rows
    requires KeyOf(a.envelope).intent in s.heads ==>
               head.principal == s.heads[KeyOf(a.envelope).intent].principal
               && head.current >= s.heads[KeyOf(a.envelope).intent].current
    ensures forall k :: KeepsAttempt(s, InsertAttempt(s, head, a), k)
    ensures forall i :: KeepsHead(s, InsertAttempt(s, head, a), i)
  {
  }

  lemma RegisterExtends(lib: Library, db: Db, r: Registration)
    requires Valid(lib, db)
    ensures Extends(db, Register(lib, db, r).0)
  {
    if Register(lib, db, r).0 != db {
      var s, a, key := db.attempts, NewAttempt(lib, r), KeyOf(r.envelope);
      var head := if key.intent in s.heads then s.heads[key.intent] else Head(r.envelope.principal, key.generation);
      assert HeadOk(s, key.intent) && AttemptOk(s, Key(key.intent, head.current));
      InsertExtends(s, head.(current := key.generation), a);
    }
  }

  lemma ClaimExtends(lib: Library, db: Db, r: ClaimRequest)
    requires Valid(lib, db)
    ensures Extends(db, Claim(lib, db, r).0)
  {
    if Claim(lib, db, r).0 != db { ClaimEffect(lib, db, r); }
  }

  lemma EvidenceExtends(lib: Library, db: Db, c: Call)
    requires Valid(lib, db) && OnlyEvidence(c)
    ensures Extends(db, Apply(lib, db, c))
  {
    EvidenceValid(lib, db, c);
    EvidenceGrows(lib, db, c);
    SameTablesExtend(db, Apply(lib, db, c));
  }

  lemma EvidenceGrows(lib: Library, db: Db, c: Call)
    requires OnlyEvidence(c)
    ensures KeepsEvidence(db.evidence, Apply(lib, db, c).evidence) && Apply(lib, db, c).budgets == db.budgets
  {
    if c.DoObserve? || c.DoObservePossible? { EffectsGrow(lib, db, c); } else { RecordsGrow(lib, db, c); }
  }

  lemma EffectsGrow(lib: Library, db: Db, c: Call)
    requires c.DoObserve? || c.DoObservePossible?
    ensures KeepsEvidence(db.evidence, Apply(lib, db, c).evidence) && Apply(lib, db, c).budgets == db.budgets
  {
  }

  lemma RecordsGrow(lib: Library, db: Db, c: Call)
    requires c.DoRecordCallback? || c.DoRecordIncident?
    ensures KeepsEvidence(db.evidence, Apply(lib, db, c).evidence) && Apply(lib, db, c).budgets == db.budgets
  {
  }

  lemma ApplyExtends(lib: Library, db: Db, c: Call)
    requires Valid(lib, db)
    ensures Extends(db, Apply(lib, db, c))
  {
    if Target(c).Some? { TargetedExtends(lib, db, c); }
    else if OnlyEvidence(c) { EvidenceExtends(lib, db, c); }
    else if BudgetCall(c) {
      BudgetValid(lib, db, c);
      FamiliesKept(lib, db, c);
      SameTablesExtend(db, Apply(lib, db, c));
    } else if c.DoRegister? { RegisterExtends(lib, db, c.registration); }
    else if c.DoClaim? { ClaimExtends(lib, db, c.claim); }
    else { CancelExtends(db, c.key, c.fenceToken, c.principal); }
  }

  lemma FamiliesKept(lib: Library, db: Db, c: Call)
    requires BudgetCall(c)
    ensures forall f {:trigger KeepsFamily(db.budgets, Apply(lib, db, c).budgets, f)} ::
              KeepsFamily(db.budgets, Apply(lib, db, c).budgets, f)
  {
  }

  lemma CancelExtends(db: Db, key: Key, token: Id, principal: Id)
    requires AttemptsOk(db.attempts)
    ensures Extends(db, Cancel(db, key, token, principal).0)
  {
    assert AttemptOk(db.attempts, key);
  }

  lemma ExtendsTransitive(db: Db, mid: Db, next: Db)
    requires Extends(db, mid) && Extends(mid, next)
    ensures Extends(db, next)
  {
    forall k ensures KeepsAttempt(db.attempts, next.attempts, k) {
      assert KeepsAttempt(db.attempts, mid.attempts, k) && KeepsAttempt(mid.attempts, next.attempts, k);
    }
    forall i ensures KeepsHead(db.attempts, next.attempts, i) {
      assert KeepsHead(db.attempts, mid.attempts, i) && KeepsHead(mid.attempts, next.attempts, i);
    }
    forall f ensures KeepsFamily(db.budgets, next.budgets, f) {
      assert KeepsFamily(db.budgets, mid.budgets, f) && KeepsFamily(mid.budgets, next.budgets, f);
    }
    forall id ensures KeepsRow(db.operations, next.operations, id) {
      assert KeepsRow(db.operations, mid.operations, id) && KeepsRow(mid.operations, next.operations, id);
    }
  }

  /** Whatever calls follow, closed fences, signer results, settled charges and ledger entries stay as they are. */
  lemma {:induction false} RunExtends(lib: Library, calls: seq<Call>, more: seq<Call>)
    ensures Extends(Run(lib, calls), Run(lib, calls + more))
  {
    if more == [] {
      assert calls + more == calls;
      SameTablesExtend(Run(lib, calls), Run(lib, calls));
    } else {
      var front := more[..|more| - 1];
      RunExtends(lib, calls, front);
      StepExtends(lib, calls + front, more[|more| - 1]);
      assert calls + more == calls + front + [more[|more| - 1]];
      ExtendsTransitive(Run(lib, calls), Run(lib, calls + front), Run(lib, calls + more));
    }
  }

  lemma StepExtends(lib: Library, calls: seq<Call>, c: Call)
    ensures Run(lib, calls + [c]) == Apply(lib, Run(lib, calls), c)
    ensures Extends(Run(lib, calls), Run(lib, calls + [c]))
  {
    assert (calls + [c])[..|calls + [c]| - 1] == calls;
    RunValid(lib, calls);
    ApplyExtends(lib, Run(lib, calls), c);
  }

  /** A verified signature and a refusal exclude each other for ever; a refusal has released its exposure. */
  lemma SignerResultIsFinal(lib: Library, calls: seq<Call>, more: seq<Call>, id: Id)
    requires id in Run(lib, calls).operations.rows
    requires var s := Run(lib, calls).operations.rows[id].signerState; s.ResultAvailable? || s.SignerRefused?
    ensures id in Run(lib, calls + more).operations.rows
    ensures var o, p := Run(lib, calls).operations.rows[id], Run(lib, calls + more).operations.rows[id];
            && p.signerState == o.signerState && p.signed == o.signed && p.refusal == o.refusal
            && (o.signerState.SignerRefused? ==> p.exposureState.Released? && Charged(p) == NOTHING && p.signed.None?)
            && (o.signerState.ResultAvailable? ==> p.signed.Some? && p.refusal.None? && !p.exposureState.Released?)
  {
    RunExtends(lib, calls, more);
    assert KeepsRow(Run(lib, calls).operations, Run(lib, calls + more).operations, id);
    RunValid(lib, calls + more);
    StatesAgreeWithLedgers(lib, Run(lib, calls + more), id);
  }

  /**
   Once a family's revision has passed the one an administrator read, that administrator can no longer change it,
   whatever happens in between: a disabled budget is not revived by a stale request.
   */
  lemma StaleAdministrationIsRefused(
    lib: Library, calls: seq<Call>, more: seq<Call>, f: Id, expected: nat, active: bool, r: BudgetRequest)
    requires f in Run(lib, calls).budgets.heads && Run(lib, calls).budgets.heads[f].revision > expected
    ensures var later := Run(lib, calls + more);
            && SetBudgetStatus(later, f, expected, active) == (later, Err(StaleRevision))
            && ReviseBudget(later, f, expected, r).1.Err? && ReviseBudget(later, f, expected, r).0 == later
  {
    RunExtends(lib, calls, more);
    assert KeepsFamily(Run(lib, calls).budgets, Run(lib, calls + more).budgets, f);
  }

  /** The family and the revision an administrator's request was made for. */
  function Aim(c: Call): Option<(Id, nat)> {
    match c
    case DoSetBudgetStatus(f, expected, _) => Some((f, expected))
    case DoReviseBudget(f, expected, _) => Some((f, expected))
    case _ => None
  }

  /** Of two requests made at one revision of a family at most one ever changes anything, over any run. */
  lemma OneAdministratorWins(lib: Library, calls: seq<Call>, c: Call, more: seq<Call>, d: Call)
    requires Aim(c).Some? && Aim(d) == Aim(c) && Apply(lib, Run(lib, calls), c) != Run(lib, calls)
    ensures Apply(lib, Run(lib, calls + [c] + more), d) == Run(lib, calls + [c] + more)
  {
    var (f, expected) := Aim(c).value;
    RunValid(lib, calls);
    StepExtends(lib, calls, c);
    ChangeSpendsRevision(lib, Run(lib, calls), c);
    RunExtends(lib, calls + [c], more);
    assert KeepsFamily(Run(lib, calls + [c]).budgets, Run(lib, calls + [c] + more).budgets, f);
  }

  lemma ChangeSpendsRevision(lib: Library, db: Db, c: Call)
    requires Valid(lib, db) && Aim(c).Some? && Apply(lib, db, c) != db
    ensures var (f, expected) := Aim(c).value;
            f in Apply(lib, db, c).budgets.heads && Apply(lib, db, c).budgets.heads[f].revision == expected + 1
  {
    match c
    case DoSetBudgetStatus(f, expected, active) =>
      AdministrationSpendsRevision(lib, db, f, expected, active, BudgetRequest(0, NOTHING));
    case DoReviseBudget(f, expected, r) => AdministrationSpendsRevision(lib, db, f, expected, true, r);
  }

  /** Every change of a family spends the revision it was made at. */
  lemma AdministrationSpendsRevision(lib: Library, db: Db, f: Id, expected: nat, active: bool, r: BudgetRequest)
    requires Valid(lib, db)
    ensures var next := SetBudgetStatus(db, f, expected, active).0;
            next != db ==> f in next.budgets.heads && next.budgets.heads[f].revision == expected + 1
                           && next.budgets.heads[f].active == active
    ensures var next := ReviseBudget(db, f, expected, r).0;
            next != db ==> f in next.budgets.heads && next.budgets.heads[f].revision == expected + 1
                           && next.budgets.heads[f].current == r.budgetId && r.budgetId in next.budgets.versions
                           && next.budgets.versions[r.budgetId].limits == r.limits
                           && next.budgets.heads[f].active == db.budgets.heads[f].active
  {
    assert FamilyOk(db.budgets, f);
  }

  /**
   Whatever calls run between the two transactions of settling, the second answers iff the operation is already
   settled by the same accounting, or is not settled and not frozen, and then charges exactly what was observed.
   */
  lemma SettlementSurvivesInterleaving(lib: Library, calls: seq<Call>, id: Id, seen: Observation, more: seq<Call>)
    requires Observe(Run(lib, calls), id, seen).1.Ok?
    ensures var later := Run(lib, calls + [DoObserve(id, seen)] + more);
            var settled := ApplyAccounting(later, id, seen.accounting.reference).1;
            && id in later.operations.rows
            && (settled.Ok? <==>
                  if later.operations.rows[id].exposureState.Consumed?
                  then later.operations.rows[id].consumed == Some(seen.accounting)
                  else id !in later.evidence.incidents)
            && (settled.Ok? ==>
                  Charged(settled.value)
                  == Charge(seen.accounting.base, seen.accounting.priority, seen.accounting.rent, 0))
  {
    var done := calls + [DoObserve(id, seen)];
    RunValid(lib, calls);
    RunValid(lib, done + more);
    StepExtends(lib, calls, DoObserve(id, seen));
    RunExtends(lib, done, more);
    assert LedgerOk(Run(lib, calls).operations, Run(lib, calls).evidence, id);
    SettlesLater(Run(lib, done), Run(lib, done + more), id, seen);
  }

  lemma SettlesLater(db: Db, later: Db, id: Id, seen: Observation)
    requires Extends(db, later) && Ledgers(later.operations, later.evidence) && id in db.operations.rows
    requires db.operations.rows[id].signerState.ResultAvailable? && db.operations.rows[id].signed.Some?
    requires db.operations.rows[id].signed.value.transactionId == seen.transactionId
    requires db.operations.rows[id].tuple.sponsor.network == seen.network
    requires EffectKey(id, seen.accounting.reference) in db.evidence.effects
    requires db.evidence.effects[EffectKey(id, seen.accounting.reference)] == FinalizedAccounting(seen)
    ensures id in later.operations.rows
    ensures var settled := ApplyAccounting(later, id, seen.accounting.reference).1;
            && (settled.Ok? <==>
                  if later.operations.rows[id].exposureState.Consumed?
                  then later.operations.rows[id].consumed == Some(seen.accounting)
                  else id !in later.evidence.incidents)
            && (settled.Ok? ==>
                  Charged(settled.value)
                  == Charge(seen.accounting.base, seen.accounting.priority, seen.accounting.rent, 0))
  {
    assert KeepsRow(db.operations, later.operations, id);
    assert Fixed(later.operations.rows[id]).tuple == Fixed(db.operations.rows[id]).tuple;
    assert Fixed(later.operations.rows[id]).id == Fixed(db.operations.rows[id]).id;
    assert LedgerOk(later.operations, later.evidence, id);
  }

  // ---- cancellation against claims -----------------------------------------------------------------------------

  /** After a cancellation answers CANCELLED no run ever claims that generation: it has and gets no finalization. */
  lemma CancelledIsNeverClaimed(lib: Library, calls: seq<Call>, key: Key, token: Id, principal: Id, more: seq<Call>,
                                r: ClaimRequest)
    requires Cancel(Run(lib, calls), key, token, principal).1 == Ok(AnswerCancelled)
    ensures var later := Run(lib, calls + [DoCancel(key, token, principal)] + more);
            && key in later.attempts.rows && later.attempts.rows[key].state.Cancelled?
            && key !in later.operations.byGeneration
            && (r.envelopeDigest == later.attempts.rows[key].digest ==> Claim(lib, later, r).1.Err?)
  {
    var db, done := Run(lib, calls), calls + [DoCancel(key, token, principal)];
    var later := Run(lib, done + more);
    StepExtends(lib, calls, DoCancel(key, token, principal));
    RunExtends(lib, done, more);
    RunValid(lib, done + more);
    assert KeepsAttempt(Run(lib, done).attempts, later.attempts, key) && AttemptOk(later.attempts, key);
    ClaimedIsCommitted(lib, later.attempts, later.operations, key);
  }

  /** And when a claim wins, cancelling answers FINALIZATION_WON ever after, whoever asks with the right fence. */
  lemma ClaimedIsNeverCancelled(lib: Library, calls: seq<Call>, key: Key, more: seq<Call>, token: Id, principal: Id)
    requires key in Run(lib, calls).operations.byGeneration
    ensures var later := Run(lib, calls + more);
            && key in later.attempts.rows && later.attempts.rows[key].state.FinalizationCommitted?
            && later.attempts.rows[key].finalizationId == Some(Run(lib, calls).operations.byGeneration[key])
            && Cancel(later, key, token, principal).0 == later
            && Cancel(later, key, token, principal).1 != Ok(AnswerCancelled)
  {
    var db, later := Run(lib, calls), Run(lib, calls + more);
    RunValid(lib, calls);
    ClaimedIsCommitted(lib, db.attempts, db.operations, key);
    RunExtends(lib, calls, more);
    assert KeepsAttempt(db.attempts, later.attempts, key);
  }

  // ---- the pure decision -------------------------------------------------------------------------------------

  function Project(o: Operation): PureOperation { PureOperation(o.id, o.tuple, o.tupleDigest) }

  function ById(db: Db, id: Id): Option<PureOperation> {
    if id in db.operations.rows then Some(Project(db.operations.rows[id])) else None
  }

  function ByGeneration(db: Db, key: Key): Option<PureOperation> {
    if key in db.operations.byGeneration then ById(db, db.operations.byGeneration[key]) else None
  }

  predicate Readable(lib: Library, db: Db, r: ClaimRequest) {
    && r.envelopeDigest in db.attempts.byDigest && db.attempts.byDigest[r.envelopeDigest] in db.attempts.rows
    && Inspected(lib, db.attempts.rows[db.attempts.byDigest[r.envelopeDigest]], r.artifact).1.Some?
  }

  function Decide(lib: Library, db: Db, r: ClaimRequest): Result<Decided, Refusal>
    requires Readable(lib, db, r)
  {
    var key := db.attempts.byDigest[r.envelopeDigest];
    var a := db.attempts.rows[key];
    Resolve(lib, FenceOf(a), r.id, TupleFor(lib, a, r, Inspected(lib, a, r.artifact).1.value), ById(db, r.id),
            ByGeneration(db, key))
  }

  lemma CreatedAgrees(lib: Library, db: Db, r: ClaimRequest)
    requires Valid(lib, db) && Claim(lib, db, r).0 != db
    ensures Readable(lib, db, r) && Claim(lib, db, r).1.Ok? && Decide(lib, db, r).Ok?
    ensures var reply, decided := Claim(lib, db, r).1.value, Decide(lib, db, r).value;
            reply.disposition == decided.disposition && Project(reply.operation) == decided.operation
            && decided.fence
               == FenceOf(Claim(lib, db, r).0.attempts.rows[db.attempts.byDigest[r.envelopeDigest]])
  {
    ClaimEffect(lib, db, r);
    var key := db.attempts.byDigest[r.envelopeDigest];
    var a := db.attempts.rows[key];
    ClaimTupleEffect(lib, db, r, key, a, TupleFor(lib, a, r, Inspected(lib, a, r.artifact).1.value));
  }

  lemma NewClaimWrites(lib: Library, db: Db, r: ClaimRequest, key: Key, a: Attempt, tuple: Tuple)
    requires ClaimTuple(lib, db, r, key, a, tuple).1.Ok?
    ensures r.id in db.operations.rows || key in db.operations.byGeneration
            || r.id in ClaimTuple(lib, db, r, key, a, tuple).0.operations.rows
  {
  }

  /** An answer that stores nothing names the one row of the attempt, whose tuple is the claimed one. */
  lemma ReplyIsStored(lib: Library, db: Db, r: ClaimRequest, key: Key, a: Attempt, tuple: Tuple)
    requires Valid(lib, db) && CollisionFree(lib) && key in db.attempts.rows && db.attempts.rows[key] == a
    requires ClaimTuple(lib, db, r, key, a, tuple).1.Ok? && ClaimTuple(lib, db, r, key, a, tuple).0 == db
    ensures var reply := ClaimTuple(lib, db, r, key, a, tuple).1.value;
            var o := reply.operation;
            && a.state.FinalizationCommitted? && a.finalizationId == Some(o.id) && o.tuple == tuple
            && o.tupleDigest == lib.tupleDigest(tuple) && Binding(lib, a, o)
            && ByGeneration(db, key) == Some(Project(o))
            && reply.disposition == (if r.id in db.operations.rows then Replay else Converged)
            && (r.id in db.operations.rows ==> o.id == r.id && ById(db, r.id) == Some(Project(o)))
  {
    NewClaimWrites(lib, db, r, key, a, tuple);
    var found := if r.id in db.operations.rows then r.id else db.operations.byGeneration[key];
    assert FinalizationOk(db.attempts, db.operations, key) && RowOk(lib, db.attempts, db.operations, found);
  }

  lemma RepliedAgrees(lib: Library, db: Db, r: ClaimRequest)
    requires Valid(lib, db) && CollisionFree(lib) && Claim(lib, db, r).1.Ok? && Claim(lib, db, r).0 == db
    ensures Readable(lib, db, r)
    ensures Decide(lib, db, r) == Ok(Decision(Claim(lib, db, r).1.value.disposition,
                                              Project(Claim(lib, db, r).1.value.operation),
                                              FenceOf(db.attempts.rows[db.attempts.byDigest[r.envelopeDigest]])))
  {
    var key := db.attempts.byDigest[r.envelopeDigest];
    var a := db.attempts.rows[key];
    ReplyIsStored(lib, db, r, key, a, TupleFor(lib, a, r, Inspected(lib, a, r.artifact).1.value));
  }

  /**
   The transactional claim refines the pure decision: when it succeeds, both agree on disposition, operation and
   the fence left behind. Hence whatever the pure decision rejects, the claim rejects.
   */
  lemma ClaimRefinesDecision(lib: Library, db: Db, r: ClaimRequest)
    requires Valid(lib, db) && CollisionFree(lib) && Claim(lib, db, r).1.Ok?
    ensures && Readable(lib, db, r) && Decide(lib, db, r).Ok?
            && var (next, reply) := (Claim(lib, db, r).0, Claim(lib, db, r).1.value);
               var key := db.attempts.byDigest[r.envelopeDigest];
               && key in next.attempts.rows
               && Decide(lib, db, r).value
                  == Decision(reply.disposition, Project(reply.operation), FenceOf(next.attempts.rows[key]))
  {
    if Claim(lib, db, r).0 == db { RepliedAgrees(lib, db, r); }
    else {
      CreatedAgrees(lib, db, r);
      ClaimEffect(lib, db, r);
    }
  }

  lemma ClaimConditions(lib: Library, db: Db, r: ClaimRequest)
    requires Valid(lib, db) && CollisionFree(lib) && Readable(lib, db, r)
    ensures Claim(lib, db, r).1.Ok? <==>
              && Decide(lib, db, r).Ok?
              && (Decide(lib, db, r).value.disposition.Created? ==>
                    && r.eligible && r.signerOperationId !in db.operations.signerIds
                    && BudgetRefusal(db, db.attempts.rows[db.attempts.byDigest[r.envelopeDigest]].envelope).None?)
  {
    if Claim(lib, db, r).1.Ok? {
      ClaimRefinesDecision(lib, db, r);
      if Claim(lib, db, r).0 != db {
        CreatedConditions(lib, db, r);
      } else {
        RepliedAgrees(lib, db, r);
        NotCreated(lib, db, r);
      }
    }
    if Claim(lib, db, r).1.Err? { RejectedIsRefused(lib, db, r); }
  }

  lemma CreatedConditions(lib: Library, db: Db, r: ClaimRequest)
    requires Valid(lib, db) && Claim(lib, db, r).0 != db
    ensures r.envelopeDigest in db.attempts.byDigest && db.attempts.byDigest[r.envelopeDigest] in db.attempts.rows
    ensures r.eligible && r.signerOperationId !in db.operations.signerIds
    ensures BudgetRefusal(db, db.attempts.rows[db.attempts.byDigest[r.envelopeDigest]].envelope).None?
  {
    ClaimEffect(lib, db, r);
    var key := db.attempts.byDigest[r.envelopeDigest];
    var a := db.attempts.rows[key];
    ClaimTupleEffect(lib, db, r, key, a, TupleFor(lib, a, r, Inspected(lib, a, r.artifact).1.value));
  }

  lemma NotCreated(lib: Library, db: Db, r: ClaimRequest)
    requires Valid(lib, db) && Claim(lib, db, r).1.Ok? && Claim(lib, db, r).0 == db
    ensures !Claim(lib, db, r).1.value.disposition.Created?
  {
    if Claim(lib, db, r).1.value.disposition.Created? { CreatedWrites(lib, db, r); }
  }

  lemma RejectedIsRefused(lib: Library, db: Db, r: ClaimRequest)
    requires Valid(lib, db) && Readable(lib, db, r) && Claim(lib, db, r).1.Err?
    ensures Decide(lib, db, r).Ok? ==>
              && Decide(lib, db, r).value.disposition.Created?
              && !(r.eligible && r.signerOperationId !in db.operations.signerIds
                   && BudgetRefusal(db, db.attempts.rows[db.attempts.byDigest[r.envelopeDigest]].envelope).None?)
  {
    var key := db.attempts.byDigest[r.envelopeDigest];
    assert AttemptOk(db.attempts, key);
    ClaimedIsCommitted(lib, db.attempts, db.operations, key);
    assert RowOk(lib, db.attempts, db.operations, r.id);
  }
}
