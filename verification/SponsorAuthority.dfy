/** The evidence an operation's authority rests on: contact and expiry judge it by the same reasons. */
module SponsorAuthority {
  import opened Wrappers
  import opened SponsorTables
  import opened SponsorSteps
  import opened SponsorRuns
  import opened SponsorHistory

  /** A reason stands in the list exactly when its row says so. */
  predicate Holds(a: Authority, r: Reason) {
    match r
    case NetworkRevoked => a.networkRevoked
    case AssetRevoked => a.assetRevoked
    case IntentExpired => a.intentExpiresAt <= a.now
    case AccountInactive => !a.accountActive
    case ConsentRevoked => a.consent.revoked
    case ConsentExpired => a.consent.expiresAt <= a.now
    case RuntimeRevoked => a.runtime.revoked
    case RuntimeExpired => a.runtime.expiresAt <= a.now
    case SessionRevoked => a.session.Some? && a.session.value.validity.revoked
    case SessionExpired => a.session.Some? && a.session.value.validity.expiresAt <= a.now
  }

  lemma EndedHolds(v: Validity, now: nat, revoked: Reason, expired: Reason, r: Reason)
    ensures r in Ended(v, now, revoked, expired)
            <==> (v.revoked && r == revoked) || (v.expiresAt <= now && r == expired)
  {
  }

  lemma SimpleHold(a: Authority, r: Reason)
    ensures r in RegistryReasons(a) <==> (r.NetworkRevoked? || r.AssetRevoked?) && Holds(a, r)
    ensures r in IntentReasons(a) <==> (r.IntentExpired? || r.AccountInactive?) && Holds(a, r)
  {
  }

  lemma ReasonsHold(a: Authority, r: Reason)
    ensures r in Reasons(a) <==> Holds(a, r)
  {
    SimpleHold(a, r);
    EndedHolds(a.consent, a.now, ConsentRevoked, ConsentExpired, r);
    EndedHolds(a.runtime, a.now, RuntimeRevoked, RuntimeExpired, r);
    if a.session.Some? { EndedHolds(a.session.value.validity, a.now, SessionRevoked, SessionExpired, r); }
    JoinedReasons(RegistryReasons(a), IntentReasons(a), Ended(a.consent, a.now, ConsentRevoked, ConsentExpired),
                  Ended(a.runtime, a.now, RuntimeRevoked, RuntimeExpired), SessionReasons(a), r);
  }

  lemma JoinedReasons(a: seq<Reason>, b: seq<Reason>, c: seq<Reason>, d: seq<Reason>, e: seq<Reason>, r: Reason)
    ensures r in a + b + c + d + e <==> r in a || r in b || r in c || r in d || r in e
  {
  }

  /** Rows only age and are revoked for good; time goes on. An account may become active again. */
  predicate Later(a: Authority, b: Authority) {
    && a.now <= b.now && b.intentExpiresAt == a.intentExpiresAt
    && (a.networkRevoked ==> b.networkRevoked) && (a.assetRevoked ==> b.assetRevoked)
    && Ages(a.consent, b.consent) && Ages(a.runtime, b.runtime)
    && (a.session.Some? ==> b.session.Some? && Ages(a.session.value.validity, b.session.value.validity))
  }

  predicate Ages(v: Validity, w: Validity) { w.expiresAt <= v.expiresAt && (v.revoked ==> w.revoked) }

  lemma NoReasonIffNoneHolds(a: Authority)
    ensures Reasons(a) == [] <==> forall r :: !Holds(a, r)
  {
    forall r ensures Holds(a, r) <==> r in Reasons(a) { ReasonsHold(a, r); }
    if Reasons(a) != [] { assert Reasons(a)[0] in Reasons(a); }
  }

  /** A reason other than an inactive account never goes away, so what it ended may never be contacted again. */
  lemma InvalidatedForGood(a: Authority, b: Authority, r: Reason)
    requires Later(a, b) && r in Reasons(a) && !r.AccountInactive?
    ensures r in Reasons(b) && !MayContact(b)
  {
    ReasonsHold(a, r);
    ReasonsHold(b, r);
  }

  // ---- over runs ---------------------------------------------------------------------------------------

  /** The reading a contact or an expiry of the operation is judged by. */
  function Reading(c: Call, id: Id): Option<Authority> {
    match c
    case DoCommitContact(i, a) => if i == id then Some(a) else None
    case DoExpire(i, a) => if i == id then Some(a) else None
    case _ => None
  }

  lemma ContactNeedsReading(lib: Library, db: Db, c: Call, id: Id)
    ensures id in Apply(lib, db, c).evidence.contacts && id !in db.evidence.contacts ==>
              c.DoCommitContact? && c.id == id && MayContact(c.authority)
  {
    if Target(c).Some? { TargetedIsJudged(lib, db, c); }
  }

  lemma ExpiryNeedsReading(lib: Library, db: Db, c: Call, id: Id)
    ensures var v, w := db.evidence, Apply(lib, db, c).evidence;
            id in w.expiries && (id !in v.expiries || w.expiries[id] != v.expiries[id]) ==>
              c.DoExpire? && c.id == id && w.expiries[id].reasons == Reasons(c.authority) && Reasons(c.authority) != []
  {
    if Target(c).Some? { TargetedIsJudged(lib, db, c); }
  }

  /** Every contact on record was granted on a reading without reasons, every expiry on the reasons it names. */
  lemma {:induction false} LedgersHaveReadings(lib: Library, calls: seq<Call>, id: Id)
    ensures id in Run(lib, calls).evidence.contacts ==>
              exists n :: 0 <= n < |calls| && calls[n].DoCommitContact? && calls[n].id == id
                && (forall r :: !Holds(calls[n].authority, r))
    ensures id in Run(lib, calls).evidence.expiries ==>
              exists n :: 0 <= n < |calls| && calls[n].DoExpire? && calls[n].id == id
                && Run(lib, calls).evidence.expiries[id].reasons == Reasons(calls[n].authority) != []
  {
    if calls != [] {
      var front, last := calls[..|calls| - 1], calls[|calls| - 1];
      LedgersHaveReadings(lib, front, id);
      ContactNeedsReading(lib, Run(lib, front), last, id);
      ExpiryNeedsReading(lib, Run(lib, front), last, id);
      if last.DoCommitContact? { NoReasonIffNoneHolds(last.authority); }
    }
  }

  /** The readings of one operation only age as a run goes on. */
  ghost predicate AgesAlong(calls: seq<Call>, id: Id) {
    forall i, j {:trigger Reading(calls[i], id), Reading(calls[j], id)} :: 0 <= i < j < |calls| ==>
      Reading(calls[i], id).Some? && Reading(calls[j], id).Some? ==>
        Later(Reading(calls[i], id).value, Reading(calls[j], id).value)
  }

  /** Once a reason other than an inactive account has been read, no later call of the run is granted contact. */
  lemma NoGrantOnceInvalidated(lib: Library, calls: seq<Call>, m: nat, n: nat, id: Id, r: Reason)
    requires AgesAlong(calls, id) && m <= n < |calls| && Reading(calls[m], id).Some?
    requires r in Reasons(Reading(calls[m], id).value) && !r.AccountInactive?
    requires calls[n].DoCommitContact? && calls[n].id == id
    ensures CommitContact(Run(lib, calls[..n]), id, calls[n].authority).1 != Ok(true)
  {
    StillInvalidated(calls, m, n, id, r);
  }

  /** The operation is in the contact ledger afterwards only if it was there before. */
  lemma NoContactOnceInvalidated(lib: Library, calls: seq<Call>, m: nat, n: nat, id: Id, r: Reason)
    requires AgesAlong(calls, id) && m <= n <= |calls| && m < |calls| && Reading(calls[m], id).Some?
    requires r in Reasons(Reading(calls[m], id).value) && !r.AccountInactive?
    ensures id in Run(lib, calls[..n]).evidence.contacts ==> id in Run(lib, calls[..m]).evidence.contacts
  {
    var contacted := (k: nat) => k <= |calls| && id in Run(lib, calls[..k]).evidence.contacts;
    forall k: nat | m <= k < n ensures contacted(k + 1) ==> contacted(k) {
      InvalidatedStep(lib, calls, m, k, id, r);
    }
    HoldsBackwards(contacted, m, n);
  }

  lemma {:induction false} HoldsBackwards(p: nat -> bool, m: nat, n: nat)
    requires m <= n && forall k: nat :: m <= k < n && p(k + 1) ==> p(k)
    ensures p(n) ==> p(m)
    decreases n
  {
    if m < n { HoldsBackwards(p, m, n - 1); assert n - 1 + 1 == n; }
  }

  lemma InvalidatedStep(lib: Library, calls: seq<Call>, m: nat, n: nat, id: Id, r: Reason)
    requires AgesAlong(calls, id) && m <= n < |calls| && Reading(calls[m], id).Some?
    requires r in Reasons(Reading(calls[m], id).value) && !r.AccountInactive?
    ensures id in Run(lib, calls[..n + 1]).evidence.contacts ==> id in Run(lib, calls[..n]).evidence.contacts
  {
    PrefixStep(lib, calls, n);
    if calls[n].DoCommitContact? && calls[n].id == id { StillInvalidated(calls, m, n, id, r); }
    NoNewContact(lib, Run(lib, calls[..n]), calls[n], id);
  }

  lemma PrefixStep(lib: Library, calls: seq<Call>, n: nat)
    requires n < |calls|
    ensures Run(lib, calls[..n + 1]) == Apply(lib, Run(lib, calls[..n]), calls[n])
  {
    assert calls[..n + 1] == calls[..n] + [calls[n]];
    StepExtends(lib, calls[..n], calls[n]);
  }

  lemma NoNewContact(lib: Library, db: Db, c: Call, id: Id)
    requires c.DoCommitContact? && c.id == id ==> !MayContact(c.authority)
    ensures id in Apply(lib, db, c).evidence.contacts ==> id in db.evidence.contacts
  {
    ContactNeedsReading(lib, db, c, id);
  }

  lemma StillInvalidated(calls: seq<Call>, m: nat, n: nat, id: Id, r: Reason)
    requires AgesAlong(calls, id) && m <= n < |calls| && Reading(calls[m], id).Some? && Reading(calls[n], id).Some?
    requires r in Reasons(Reading(calls[m], id).value) && !r.AccountInactive?
    ensures !MayContact(Reading(calls[n], id).value)
  {
    if m < n { InvalidatedForGood(Reading(calls[m], id).value, Reading(calls[n], id).value, r); }
  }
}
