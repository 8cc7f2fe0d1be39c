/**
 Cancellation against finalization: in every reachable state an attempt has a finalization exactly when its
 fence is committed to it, and everything below an intent's current generation is cancelled for good.
 */
module SponsorFences {
  import opened Wrappers
  import opened SponsorTables
  import opened SponsorClaim
  import opened SponsorSteps

  ghost predicate HeadOk(s: Attempts, i: Id) {
    i in s.heads ==> s.heads[i].current >= 1 && Key(i, s.heads[i].current) in s.rows
  }

  /** Generations are consecutive up to the head's, and only the head's own may be other than cancelled. */
  ghost predicate AttemptOk(s: Attempts, k: Key) {
    k in s.rows ==>
      && KeyOf(s.rows[k].envelope) == k && k.intent in s.heads
      && s.rows[k].envelope.principal == s.heads[k.intent].principal
      && 1 <= k.generation <= s.heads[k.intent].current
      && (k.generation > 1 ==> Key(k.intent, k.generation - 1) in s.rows)
      && (k.generation < s.heads[k.intent].current ==> s.rows[k].state.Cancelled?)
      && (s.rows[k].state.FinalizationCommitted? <==> s.rows[k].finalizationId.Some?)
      && s.rows[k].digest in s.byDigest && s.byDigest[s.rows[k].digest] == k
  }

  ghost predicate DigestOk(s: Attempts, d: Id) {
    d in s.byDigest ==> s.byDigest[d] in s.rows && s.rows[s.byDigest[d]].digest == d
  }

  ghost predicate FinalizationOk(s: Attempts, o: Operations, k: Key) {
    k in s.rows && s.rows[k].finalizationId.Some? ==>
      s.rows[k].finalizationId.value in o.rows && o.rows[s.rows[k].finalizationId.value].key == k
  }

  /** A finalization row carries the identity, digests, exposure and limits of its own attempt. */
  ghost predicate Binding(lib: Library, a: Attempt, o: Operation) {
    && o.tuple.attempt == a.envelope.attempt && o.tuple.sponsor == a.envelope.sponsor
    && o.tuple.messageDigest == a.messageDigest && o.tuple.envelopeDigest == a.digest
    && o.tuple.user == a.envelope.user && o.tuple.runtime == a.envelope.runtime
    && o.tuple.exposureId == a.exposureId == o.exposureId && o.requested.base == a.envelope.maxBase
    && o.requested.priority == a.envelope.maxPriority && o.requested.rent == a.envelope.maxRent
    && o.requested.outstanding == 1
    && o.tupleDigest == lib.tupleDigest(o.tuple) && TupleAllowed(o.tuple)
  }

  ghost predicate RowOk(lib: Library, s: Attempts, o: Operations, id: Id) {
    id in o.rows ==>
      && o.rows[id].id == id && o.rows[id].key in s.rows
      && s.rows[o.rows[id].key].state.FinalizationCommitted?
      && s.rows[o.rows[id].key].finalizationId == Some(id)
      && Binding(lib, s.rows[o.rows[id].key], o.rows[id])
      && o.rows[id].key in o.byGeneration && o.byGeneration[o.rows[id].key] == id
  }

  ghost predicate IndexOk(o: Operations, k: Key) {
    k in o.byGeneration ==> o.byGeneration[k] in o.rows && o.rows[o.byGeneration[k]].key == k
  }

  ghost predicate AttemptsOk(s: Attempts) {
    && (forall i {:trigger HeadOk(s, i)} :: HeadOk(s, i))
    && (forall k {:trigger AttemptOk(s, k)} :: AttemptOk(s, k))
    && (forall d {:trigger DigestOk(s, d)} :: DigestOk(s, d))
  }

  ghost predicate OperationsOk(lib: Library, s: Attempts, o: Operations) {
    && (forall k {:trigger FinalizationOk(s, o, k)} :: FinalizationOk(s, o, k))
    && (forall id {:trigger RowOk(lib, s, o, id)} :: RowOk(lib, s, o, id))
    && (forall k {:trigger IndexOk(o, k)} :: IndexOk(o, k))
  }

  ghost predicate Fenced(lib: Library, db: Db) {
    AttemptsOk(db.attempts) && OperationsOk(lib, db.attempts, db.operations)
  }

  // ---- attempts ----------------------------------------------------------------------------------------

  lemma InsertKeepsAttempts(s: Attempts, head: Head, a: Attempt)
    requires AttemptsOk(s) && !Collides(s, a) && head.current == KeyOf(a.envelope).generation
    requires head.principal == a.envelope.principal && a.state.Open? && a.finalizationId.None?
    requires if KeyOf(a.envelope).intent in s.heads
             then head == s.heads[KeyOf(a.envelope).intent].(current := head.current)
                  && head.current == s.heads[KeyOf(a.envelope).intent].current + 1
                  && Key(KeyOf(a.envelope).intent, head.current - 1) in s.rows
                  && s.rows[Key(KeyOf(a.envelope).intent, head.current - 1)].state.Cancelled?
             else head.current == 1
    ensures AttemptsOk(InsertAttempt(s, head, a))
  {
    var t := InsertAttempt(s, head, a);
    forall i ensures HeadOk(t, i) { assert HeadOk(s, i); }
    forall k ensures AttemptOk(t, k) { assert AttemptOk(s, k) && HeadOk(s, k.intent); }
    forall d ensures DigestOk(t, d) { assert DigestOk(s, d); }
  }

  lemma InsertKeepsOperations(lib: Library, s: Attempts, o: Operations, head: Head, a: Attempt)
    requires OperationsOk(lib, s, o) && !Collides(s, a) && a.finalizationId.None?
    ensures OperationsOk(lib, InsertAttempt(s, head, a), o)
  {
    var t := InsertAttempt(s, head, a);
    forall k ensures FinalizationOk(t, o, k) { assert FinalizationOk(s, o, k); }
    forall id ensures RowOk(lib, t, o, id) { assert RowOk(lib, s, o, id); }
  }

  lemma RegisterKeepsFences(lib: Library, db: Db, r: Registration)
    requires Fenced(lib, db)
    ensures Fenced(lib, Register(lib, db, r).0)
  {
    if Register(lib, db, r).0 != db {
      var s, a, key := db.attempts, NewAttempt(lib, r), KeyOf(r.envelope);
      var head := if key.intent in s.heads then s.heads[key.intent] else Head(r.envelope.principal, key.generation);
      assert HeadOk(s, key.intent) && AttemptOk(s, Key(key.intent, head.current));
      InsertKeepsAttempts(s, head.(current := key.generation), a);
      InsertKeepsOperations(lib, s, db.operations, head.(current := key.generation), a);
    }
  }

  /** An answered digest names the intent's current attempt, with the registered message, blockhash and owner. */
  lemma RegisteredIsCurrent(lib: Library, db: Db, r: Registration)
    requires Fenced(lib, db) && Register(lib, db, r).1.Ok?
    ensures var s, intent := Register(lib, db, r).0.attempts, r.envelope.attempt.intentId;
            && intent in s.heads && s.heads[intent].principal == r.envelope.principal
            && Key(intent, s.heads[intent].current) in s.rows
            && var a := s.rows[Key(intent, s.heads[intent].current)];
               && Register(lib, db, r).1 == Ok(a.digest) && a.digest == lib.bindingDigest(r.envelope)
               && a.digest in s.byDigest && s.byDigest[a.digest] == Key(intent, s.heads[intent].current)
               && a.messageDigest == lib.messageDigest(r.envelope, r.blockhash) && a.blockhash == r.blockhash
               && (s != db.attempts ==> a.envelope == r.envelope && a.exposureId == r.exposureId && a.state.Open?)
  {
    var s, key := db.attempts, KeyOf(r.envelope);
    assert HeadOk(s, key.intent);
    if key.intent in s.heads { assert AttemptOk(s, Key(key.intent, s.heads[key.intent].current)); }
    else { assert AttemptOk(s, key); }
  }

  /** Changing only the state of an attempt of the current generation. */
  lemma SetKeepsAttempts(s: Attempts, k: Key, a: Attempt)
    requires AttemptsOk(s) && k in s.rows && a == s.rows[k].(state := a.state, finalizationId := a.finalizationId)
    requires a.state.FinalizationCommitted? <==> a.finalizationId.Some?
    requires (k.intent in s.heads && k.generation == s.heads[k.intent].current) || a.state.Cancelled?
    ensures AttemptsOk(SetAttempt(s, k, a))
  {
    var t := SetAttempt(s, k, a);
    forall i ensures HeadOk(t, i) { assert HeadOk(s, i); }
    forall j ensures AttemptOk(t, j) { assert AttemptOk(s, j); }
    forall d ensures DigestOk(t, d) { assert DigestOk(s, d); }
  }

  lemma CancelKeepsFences(lib: Library, db: Db, key: Key, token: Id, principal: Id)
    requires Fenced(lib, db)
    ensures Fenced(lib, Cancel(db, key, token, principal).0)
  {
    if Cancel(db, key, token, principal).0 != db {
      var s, o := db.attempts, db.operations;
      var a := s.rows[key].(state := Cancelled);
      assert AttemptOk(s, key);
      SetKeepsAttempts(s, key, a);
      var t := SetAttempt(s, key, a);
      forall k ensures FinalizationOk(t, o, k) { assert FinalizationOk(s, o, k); }
      forall id ensures RowOk(lib, t, o, id) { assert RowOk(lib, s, o, id); }
    }
  }

  // ---- claims --------------------------------------------------------------------------------------------

  /** What a claim that wrote anything has checked: an open current attempt without a finalization. */
  lemma ClaimEffect(lib: Library, db: Db, r: ClaimRequest)
    requires AttemptsOk(db.attempts) && Claim(lib, db, r).0 != db
    ensures r.envelopeDigest in db.attempts.byDigest
    ensures var s, key := db.attempts, db.attempts.byDigest[r.envelopeDigest];
            && key in s.rows && s.rows[key].state.Open? && s.rows[key].finalizationId.None?
            && key.intent in s.heads && s.heads[key.intent].current == key.generation
            && r.id !in db.operations.rows && key !in db.operations.byGeneration
            && Claim(lib, db, r).1.Ok? && Claim(lib, db, r).1.value.disposition.Created?
            && var o := Claim(lib, db, r).1.value.operation;
               && o.id == r.id && o.key == key && Binding(lib, s.rows[key], o) && o.tuple.consentId == r.consentId
               && o.artifact == r.artifact && o.signerOperationId == r.signerOperationId
               && lib.carriedMessage(r.artifact, s.rows[key].envelope, s.rows[key].blockhash)
                  == Some(o.tuple.messageDigest)
               && lib.inspect(r.artifact, o.tuple.messageDigest, o.tuple.user, o.tuple.sponsor.publicKey)
                  == CustomerOnly(o.tuple.customerSignature)
               && o.signerState.NotContacted? && o.exposureState.Reserved? && o.consumed.None? && o.signed.None?
               && o.refusal.None? && o.version == 0 && o.signerOperationId !in db.operations.signerIds
               && Claim(lib, db, r).0
                  == db.(attempts := SetAttempt(s, key, Committed(s.rows[key], r.id)),
                         operations := InsertOperation(db.operations, o))
  {
    var s, key := db.attempts, db.attempts.byDigest[r.envelopeDigest];
    assert AttemptOk(s, key) && DigestOk(s, r.envelopeDigest);
    var tuple := TupleFor(lib, s.rows[key], r, Inspected(lib, s.rows[key], r.artifact).1.value);
    assert Claim(lib, db, r) == ClaimTuple(lib, db, r, key, s.rows[key], tuple);
    ClaimTupleEffect(lib, db, r, key, s.rows[key], tuple);
  }

  lemma ClaimTupleEffect(lib: Library, db: Db, r: ClaimRequest, key: Key, a: Attempt, tuple: Tuple)
    requires ClaimTuple(lib, db, r, key, a, tuple).0 != db
    ensures r.id !in db.operations.rows && key !in db.operations.byGeneration && a.state.Open?
    ensures CommitFence(FenceOf(a), tuple, r.id).Some? && BudgetRefusal(db, a.envelope).None?
    ensures var row := NewOperation(lib, db, key, a, r, tuple);
            && row.signerOperationId !in db.operations.signerIds
            && ClaimTuple(lib, db, r, key, a, tuple)
               == (db.(operations := InsertOperation(db.operations, row),
                       attempts := SetAttempt(db.attempts, key, Committed(a, r.id))), Ok(ClaimReply(Created, row)))
  {
  }

  lemma ClaimKeepsFences(lib: Library, db: Db, r: ClaimRequest)
    requires Fenced(lib, db)
    ensures Fenced(lib, Claim(lib, db, r).0)
  {
    if Claim(lib, db, r).0 != db {
      var s, o := db.attempts, db.operations;
      var key, row := s.byDigest[r.envelopeDigest], Claim(lib, db, r).1.value.operation;
      ClaimEffect(lib, db, r);
      SetKeepsAttempts(s, key, Committed(s.rows[key], r.id));
      CommitKeepsOperations(lib, s, o, key, row);
    }
  }

  lemma CommitKeepsOperations(lib: Library, s: Attempts, o: Operations, key: Key, row: Operation)
    requires OperationsOk(lib, s, o) && key in s.rows && s.rows[key].finalizationId.None?
    requires row.key == key && row.id !in o.rows && key !in o.byGeneration && Binding(lib, s.rows[key], row)
    ensures OperationsOk(lib, SetAttempt(s, key, Committed(s.rows[key], row.id)), InsertOperation(o, row))
  {
    var t, p := SetAttempt(s, key, Committed(s.rows[key], row.id)), InsertOperation(o, row);
    forall k ensures FinalizationOk(t, p, k) { assert FinalizationOk(s, o, k); }
    forall id ensures RowOk(lib, t, p, id) { assert RowOk(lib, s, o, id); }
    forall k ensures IndexOk(p, k) { assert IndexOk(o, k); }
  }

  // ---- the other calls -------------------------------------------------------------------------------------

  /** The columns of a finalization that no update may change. */
  function Fixed(o: Operation): Operation {
    o.(signerState := NotContacted, exposureState := Reserved, signed := None, refusal := None, consumed := None,
       version := 0)
  }

  ghost predicate SameFixed(o: Operations, p: Operations, id: Id) {
    (id in o.rows <==> id in p.rows) && (id in o.rows ==> Fixed(o.rows[id]) == Fixed(p.rows[id]))
  }

  /** A call that leaves attempts alone and changes no fixed column of any row. */
  ghost predicate Restates(db: Db, next: Db) {
    && next.attempts == db.attempts && next.operations == db.operations.(rows := next.operations.rows)
    && forall id {:trigger SameFixed(db.operations, next.operations, id)} ::
         SameFixed(db.operations, next.operations, id)
  }

  lemma RestatingKeepsFences(lib: Library, db: Db, next: Db)
    requires Fenced(lib, db) && Restates(db, next)
    ensures Fenced(lib, next)
  {
    var s, o, p := db.attempts, db.operations, next.operations;
    forall k ensures FinalizationOk(s, p, k) {
      assert FinalizationOk(s, o, k);
      if k in s.rows && s.rows[k].finalizationId.Some? { SameKey(o, p, s.rows[k].finalizationId.value); }
    }
    forall id ensures RowOk(lib, s, p, id) { assert RowOk(lib, s, o, id) && SameFixed(o, p, id); }
    forall k ensures IndexOk(p, k) {
      assert IndexOk(o, k);
      if k in o.byGeneration { SameKey(o, p, o.byGeneration[k]); }
    }
  }

  lemma SameKey(o: Operations, p: Operations, id: Id)
    requires SameFixed(o, p, id) && id in o.rows
    ensures id in p.rows && p.rows[id].key == o.rows[id].key
  {
    assert Fixed(o.rows[id]).key == Fixed(p.rows[id]).key;
  }

  predicate BudgetCall(c: Call) { c.DoInstallBudget? || c.DoSetBudgetStatus? || c.DoReviseBudget? }
}
