/**
 The signer's side of a finalization: what the table's lifecycle check and update guard demand, what the
 append-only ledgers prove about each state, and that every call keeps all of it.
 */
module SponsorLedger {
  import opened Wrappers
  import opened SponsorTables
  import opened SponsorClaim
  import opened SponsorSteps
  import opened SponsorFences

  predicate Contacted(s: SignerState) {
    s.ContactCommitted? || s.ResultUnknown? || s.ResultAvailable? || s.SignerRefused?
  }

  /** The lifecycle check of the finalizations table. */
  predicate Lifecycle(o: Operation) {
    && (o.signerState.SignerRefused? <==> o.refusal.Some?)
    && (o.signerState.ResultAvailable? <==> o.signed.Some?)
    && (match o.signerState
        case NotContacted => o.exposureState.Reserved?
        case ContactCommitted | ResultUnknown => o.exposureState.Uncertain?
        case ResultAvailable => o.exposureState.Uncertain? || o.exposureState.Consumed?
        case SignerRefused | ExpiredNeverContacted => o.exposureState.Released?)
    && (o.exposureState.Consumed? <==> o.consumed.Some?)
    && (o.consumed.Some? ==> Bounded(o.consumed.value, o.requested))
  }

  predicate Bounded(c: Accounting, requested: Charge) {
    c.base <= requested.base && c.priority <= requested.priority && c.rent <= requested.rent
  }

  /** The update guard of the finalizations table. */
  predicate GuardAllows(o: Operation, p: Operation) {
    && Fixed(p) == Fixed(o) && p.version == o.version + 1 && !o.signerState.ExpiredNeverContacted?
    && (o.signerState.SignerRefused? || o.signerState.ResultAvailable? ==>
          p.signerState == o.signerState && p.signed == o.signed && p.refusal == o.refusal)
    && (p.signerState != o.signerState ==>
          || (o.signerState.NotContacted? && (p.signerState.ContactCommitted? || p.signerState.ExpiredNeverContacted?))
          || ((o.signerState.ContactCommitted? || o.signerState.ResultUnknown?)
              && (p.signerState.ResultUnknown? || p.signerState.SignerRefused? || p.signerState.ResultAvailable?)))
    && (o.exposureState.Released? || o.exposureState.Consumed? ==>
          p.exposureState == o.exposureState && p.consumed == o.consumed)
  }

  ghost predicate HasAccounting(v: Evidence, id: Id) {
    exists k :: k in v.effects && k.finalizationId == id && v.effects[k].FinalizedAccounting?
  }

  ghost predicate HasEffect(v: Evidence, id: Id) { exists k :: k in v.effects && k.finalizationId == id }

  /** The expiry record accounts for exactly the exposure the operation had reserved. */
  predicate Proves(e: Expiry, o: Operation) {
    e.generation == o.key.generation && e.exposureId == o.exposureId && e.released == o.requested && e.reasons != []
  }

  /** Each state against the contact and expiry ledgers. */
  ghost predicate LedgerOk(o: Operations, v: Evidence, id: Id) {
    id in o.rows ==>
      && o.rows[id].id == id && Lifecycle(o.rows[id])
      && (id in v.contacts <==> Contacted(o.rows[id].signerState))
      && (id in v.expiries <==> o.rows[id].signerState.ExpiredNeverContacted?)
      && (id in v.contacts ==> v.contacts[id] == Contact(o.rows[id].signerOperationId, o.rows[id].tupleDigest))
      && (id in v.expiries ==> Proves(v.expiries[id], o.rows[id]))
  }

  /** Ledger entries belong to stored operations; accounting evidence needs the signed result it is about. */
  ghost predicate EntryOk(o: Operations, v: Evidence, id: Id) {
    id in v.contacts || id in v.expiries || id in v.incidents ==> id in o.rows
  }

  predicate Accounts(seen: Observation, o: Operation, k: EffectKey) {
    o.signerState.ResultAvailable? && seen.accounting.reference == k.reference
    && Bounded(seen.accounting, o.requested)
  }

  ghost predicate EffectOk(o: Operations, v: Evidence, k: EffectKey) {
    k in v.effects ==>
      && k.finalizationId in o.rows && !o.rows[k.finalizationId].signerState.ExpiredNeverContacted?
      && (v.effects[k].FinalizedAccounting? ==> Accounts(v.effects[k].observation, o.rows[k.finalizationId], k))
  }

  ghost predicate Ledgers(o: Operations, v: Evidence) {
    && (forall id {:trigger LedgerOk(o, v, id)} :: LedgerOk(o, v, id))
    && (forall id {:trigger EntryOk(o, v, id)} :: EntryOk(o, v, id))
    && (forall k {:trigger EffectOk(o, v, k)} :: EffectOk(o, v, k))
  }

  /** `next` is `db` with the row of `id` put to `p` and the ledgers to `v`. */
  ghost predicate Updates(db: Db, next: Db, id: Id, p: Operation, v: Evidence) {
    && id in db.operations.rows && p.id == id
    && next == db.(operations := db.operations.(rows := db.operations.rows[id := p]), evidence := v)
  }

  /** Ledgers that grow only by entries about one operation. */
  ghost predicate GrowsAt(v: Evidence, w: Evidence, id: Id) {
    && (forall j :: j != id ==> (j in w.contacts <==> j in v.contacts) && (j in w.expiries <==> j in v.expiries))
    && (forall j :: j != id && j in v.expiries ==> w.expiries[j] == v.expiries[j])
    && (forall j :: j != id && j in v.contacts ==> w.contacts[j] == v.contacts[j])
    && (forall j :: j != id ==> (j in w.incidents <==> j in v.incidents))
  }

  lemma UpdateKeepsLedgers(db: Db, next: Db, id: Id, p: Operation, v: Evidence)
    requires Ledgers(db.operations, db.evidence) && Updates(db, next, id, p, v) && GrowsAt(db.evidence, v, id)
    requires LedgerOk(next.operations, v, id) && p.requested == db.operations.rows[id].requested
    requires v.effects == db.evidence.effects
    requires db.operations.rows[id].signerState.ResultAvailable? ==> p.signerState.ResultAvailable?
    requires p.signerState.ExpiredNeverContacted? ==> !HasEffect(db.evidence, id)
    ensures Ledgers(next.operations, next.evidence)
  {
    forall j ensures LedgerOk(next.operations, v, j) { assert LedgerOk(db.operations, db.evidence, j); }
    forall j ensures EntryOk(next.operations, v, j) { assert EntryOk(db.operations, db.evidence, j); }
    forall k ensures EffectOk(next.operations, v, k) { assert EffectOk(db.operations, db.evidence, k); }
  }

  lemma UpdateRestates(db: Db, next: Db, id: Id, p: Operation, v: Evidence)
    requires Updates(db, next, id, p, v) && Fixed(p) == Fixed(db.operations.rows[id])
    ensures Restates(db, next) && next.budgets == db.budgets
  {
    forall j ensures SameFixed(db.operations, next.operations, j) {}
  }

  /** One row changed as the update guard allows, together with its ledgers and no other's. */
  ghost predicate Moves(db: Db, next: Db, id: Id) {
    && id in next.operations.rows && id in db.operations.rows
    && Updates(db, next, id, next.operations.rows[id], next.evidence)
    && GuardAllows(db.operations.rows[id], next.operations.rows[id])
    && GrowsAt(db.evidence, next.evidence, id) && next.evidence.effects == db.evidence.effects
    && next.evidence.incidents == db.evidence.incidents && next.evidence.callbacks == db.evidence.callbacks
    && (next.operations.rows[id].signerState.ExpiredNeverContacted? ==> !HasEffect(db.evidence, id))
    && LedgerOk(next.operations, next.evidence, id)
  }

  /** What a call on a finalization did: nothing, or one such change. */
  ghost predicate Moved(db: Db, next: Db, id: Id) { next == db || Moves(db, next, id) }

  /** Any write the transaction issues is one such change, whether the freeze guard then lets it through or not. */
  ghost predicate Proposes(db: Db, id: Id, p: Proposal) { p.Writes? ==> Moves(db, Written(db, p.row, p.evidence), id) }

  lemma MovedKeeps(db: Db, next: Db, id: Id)
    requires Ledgers(db.operations, db.evidence) && Moved(db, next, id)
    ensures Ledgers(next.operations, next.evidence) && Restates(db, next) && next.budgets == db.budgets
  {
    if next != db {
      var p := next.operations.rows[id];
      assert Fixed(p).requested == Fixed(db.operations.rows[id]).requested;
      UpdateKeepsLedgers(db, next, id, p, next.evidence);
      UpdateRestates(db, next, id, p, next.evidence);
    } else {
      forall j ensures SameFixed(db.operations, next.operations, j) {}
    }
  }

  lemma ContactProposes(db: Db, id: Id, a: Authority)
    requires Ledgers(db.operations, db.evidence)
    ensures Proposes(db, id, ContactProposal(db, id, a))
  {
    assert LedgerOk(db.operations, db.evidence, id);
  }

  lemma UnknownProposes(db: Db, id: Id)
    requires Ledgers(db.operations, db.evidence)
    ensures Proposes(db, id, UnknownProposal(db, id))
  {
    assert LedgerOk(db.operations, db.evidence, id);
  }

  lemma RefusalProposes(db: Db, id: Id, reference: Id)
    requires Ledgers(db.operations, db.evidence) && id in db.operations.rows
    requires Contacted(db.operations.rows[id].signerState)
    ensures Proposes(db, id, RefusalProposal(db, db.operations.rows[id], reference))
  {
    assert LedgerOk(db.operations, db.evidence, id);
  }

  lemma SignatureProposes(lib: Library, db: Db, id: Id, artifact: Id)
    requires Ledgers(db.operations, db.evidence) && id in db.operations.rows
    requires Contacted(db.operations.rows[id].signerState)
    ensures Proposes(db, id, SignatureProposal(lib, db, db.operations.rows[id], artifact))
  {
    assert LedgerOk(db.operations, db.evidence, id);
  }

  lemma AcceptProposes(lib: Library, db: Db, id: Id, response: SignerResponse)
    requires Ledgers(db.operations, db.evidence)
    ensures Proposes(db, id, AcceptProposal(lib, db, id, response))
  {
    assert LedgerOk(db.operations, db.evidence, id);
    if id in db.operations.rows && Contacted(db.operations.rows[id].signerState) {
      if response.verdict.RefusedBy? { RefusalProposes(db, id, response.verdict.reference); }
      if response.verdict.SignedBy? { SignatureProposes(lib, db, id, response.verdict.artifact); }
    }
  }

  lemma ExpiryProposes(db: Db, id: Id, a: Authority)
    requires Ledgers(db.operations, db.evidence)
    ensures Proposes(db, id, ExpiryProposal(db, id, a))
  {
    assert LedgerOk(db.operations, db.evidence, id);
  }

  lemma AccountingProposes(db: Db, id: Id, reference: Id)
    requires Ledgers(db.operations, db.evidence)
    ensures Proposes(db, id, AccountingProposal(db, id, reference))
  {
    assert LedgerOk(db.operations, db.evidence, id);
    assert EffectOk(db.operations, db.evidence, EffectKey(id, reference));
  }

  // ---- calls that only add evidence, and the claim -----------------------------------------------------------

  /** Evidence of an effect on an operation that has not expired, for its own signed result if it accounts. */
  lemma EffectKeeps(db: Db, k: EffectKey, effect: Effect)
    requires Ledgers(db.operations, db.evidence) && k.finalizationId in db.operations.rows
    requires !db.operations.rows[k.finalizationId].signerState.ExpiredNeverContacted?
    requires effect.FinalizedAccounting? ==> Accounts(effect.observation, db.operations.rows[k.finalizationId], k)
    ensures Ledgers(AddEffect(db, k, effect).operations, AddEffect(db, k, effect).evidence)
  {
    var next := AddEffect(db, k, effect);
    forall j ensures LedgerOk(next.operations, next.evidence, j) { assert LedgerOk(db.operations, db.evidence, j); }
    forall j ensures EntryOk(next.operations, next.evidence, j) { assert EntryOk(db.operations, db.evidence, j); }
    forall j ensures EffectOk(next.operations, next.evidence, j) { assert EffectOk(db.operations, db.evidence, j); }
  }

  lemma ObservePossibleKeeps(db: Db, id: Id, reference: Id, network: Id, transaction: Option<Id>)
    requires Ledgers(db.operations, db.evidence)
    ensures var next := ObservePossible(db, id, reference, network, transaction).0;
            Ledgers(next.operations, next.evidence) && next == db.(evidence := next.evidence)
  {
    if ObservePossible(db, id, reference, network, transaction).1.Ok? {
      EffectKeeps(db, EffectKey(id, reference), PossibleEffect(network, transaction));
    }
  }

  lemma ObserveKeeps(db: Db, id: Id, seen: Observation)
    requires Ledgers(db.operations, db.evidence)
    ensures var next := Observe(db, id, seen).0;
            Ledgers(next.operations, next.evidence) && next == db.(evidence := next.evidence)
  {
    if Observe(db, id, seen).0 != db {
      EffectKeeps(db, EffectKey(id, seen.accounting.reference), FinalizedAccounting(seen));
    }
  }

  /** Callback and incident records change no ledger the other calls read their authority from. */
  lemma EvidenceKeeps(db: Db, next: Db)
    requires Ledgers(db.operations, db.evidence)
    requires next.evidence == db.evidence.(callbacks := next.evidence.callbacks, incidents := next.evidence.incidents)
    requires next == db.(evidence := next.evidence)
    requires forall id :: id in next.evidence.incidents && id !in db.evidence.incidents ==> id in db.operations.rows
    ensures Ledgers(next.operations, next.evidence)
  {
    forall j ensures LedgerOk(next.operations, next.evidence, j) { assert LedgerOk(db.operations, db.evidence, j); }
    forall j ensures EntryOk(next.operations, next.evidence, j) { assert EntryOk(db.operations, db.evidence, j); }
    forall k ensures EffectOk(next.operations, next.evidence, k) { assert EffectOk(db.operations, db.evidence, k); }
  }

  lemma ClaimKeepsLedgers(lib: Library, db: Db, r: ClaimRequest)
    requires Fenced(lib, db) && Ledgers(db.operations, db.evidence)
    ensures var next := Claim(lib, db, r).0; Ledgers(next.operations, next.evidence)
  {
    var next := Claim(lib, db, r).0;
    if next != db {
      ClaimEffect(lib, db, r);
      assert EntryOk(db.operations, db.evidence, r.id);
      forall j ensures LedgerOk(next.operations, next.evidence, j) { assert LedgerOk(db.operations, db.evidence, j); }
      forall j ensures EntryOk(next.operations, next.evidence, j) { assert EntryOk(db.operations, db.evidence, j); }
      forall k ensures EffectOk(next.operations, next.evidence, k) { assert EffectOk(db.operations, db.evidence, k); }
    }
  }

  /** Hearing the same signed or refused response again answers the same and changes nothing. */
  lemma ResponseReplays(lib: Library, db: Db, id: Id, response: SignerResponse)
    requires Ledgers(db.operations, db.evidence)
    requires Accept(lib, db, id, response).1.Ok? && !response.verdict.Unknown?
    ensures var (next, reply) := Accept(lib, db, id, response); Accept(lib, next, id, response) == (next, reply)
  {
    assert LedgerOk(db.operations, db.evidence, id);
    if response.verdict.SignedBy? { SignatureReplays(lib, db, id, response); }
  }

  lemma SignatureReplays(lib: Library, db: Db, id: Id, response: SignerResponse)
    requires Accept(lib, db, id, response).1.Ok? && response.verdict.SignedBy?
    requires LedgerOk(db.operations, db.evidence, id)
    ensures var (next, reply) := Accept(lib, db, id, response); Accept(lib, next, id, response) == (next, reply)
  {
  }

  /** The artifact is the stored one, completed over the customer's signature of this operation. */
  predicate Shows(lib: Library, o: Operation, artifact: Id) {
    var seen := lib.inspect(artifact, o.tuple.messageDigest, o.tuple.user, o.tuple.sponsor.publicKey);
    seen.FullySigned? && seen.customer == o.tuple.customerSignature
    && o.signed == Some(Signed(artifact, seen.transactionId))
  }

  /** An unknown response never takes back a result, and a result contradicting a stored one is refused. */
  lemma ResultsAreNotRevised(lib: Library, db: Db, id: Id, response: SignerResponse)
    requires Ledgers(db.operations, db.evidence) && id in db.operations.rows
    requires var s := db.operations.rows[id].signerState; s.ResultAvailable? || s.SignerRefused?
    ensures Accept(lib, db, id, response).0 == db && RecordUnknown(db, id) == (db, Ok(db.operations.rows[id]))
    ensures Accept(lib, db, id, response).1.Ok? <==>
            && Binds(response, db.operations.rows[id])
            && (match response.verdict
                case Unknown => true
                case RefusedBy(reference) =>
                  lib.validReference(reference) && db.operations.rows[id].refusal == Some(reference)
                case SignedBy(artifact) => lib.validArtifact(artifact) && Shows(lib, db.operations.rows[id], artifact))
  {
    assert LedgerOk(db.operations, db.evidence, id);
  }
}
