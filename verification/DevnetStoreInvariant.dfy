/** Every repository call keeps the store valid; what that means over whole runs. */
module DevnetStoreInvariant {
  import opened Wrappers
  import opened DevnetLifecycle
  import opened DevnetStore

  type Preparations = map<Id, Preparation>

  // ---- the two searches --------------------------------------------------------------------------

  lemma {:induction false} ConflictFree(order: seq<Id>, ps: Preparations, input: PreparationInput)
    requires forall i :: 0 <= i < |order| ==> order[i] in ps
    ensures FirstConflict(order, ps, input).None?
            <==> forall i :: 0 <= i < |order| ==> UniquenessRefusal(ps[order[i]], input).None?
  {
    if order != [] {
      ConflictFree(order[1..], ps, input);
      forall i | 1 <= i < |order| ensures order[i] == order[1..][i - 1] {}
    }
  }

  lemma {:induction false} FirstLiveIsLive(order: seq<Id>, ps: Preparations, e: Id)
    requires forall i :: 0 <= i < |order| ==> order[i] in ps
    ensures match FirstLive(order, ps, e)
            case Some(p) => IsLive(p, e) && exists i :: 0 <= i < |order| && ps[order[i]] == p
            case None => forall i :: 0 <= i < |order| ==> !IsLive(ps[order[i]], e)
  {
    if order != [] {
      FirstLiveIsLive(order[1..], ps, e);
      forall i | 1 <= i < |order| ensures order[i] == order[1..][i - 1] {}
      match FirstLive(order[1..], ps, e)
      case Some(p) =>
        var i :| 0 <= i < |order[1..]| && ps[order[1..][i]] == p;
        assert ps[order[i + 1]] == p;
      case None =>
    }
  }

  /** In a valid store the search finds the one live preparation, if the execution has any preparation. */
  lemma ActiveIsTheLiveOne(s: Store, e: Id)
    requires Valid(s)
    ensures match Active(s, e)
            case Some(p) => IsLive(p, e) && p.input.preparationId in s.preparations
                            && s.preparations[p.input.preparationId] == p
            case None => forall k :: k in s.preparations ==> s.preparations[k].input.executionId != e
    ensures forall k :: k in s.preparations && IsLive(s.preparations[k], e) ==> Active(s, e) == Some(s.preparations[k])
  {
    FirstLiveIsLive(s.order, s.preparations, e);
    forall k | k in s.preparations && s.preparations[k].input.executionId == e
      ensures Active(s, e).Some?
    {
      assert HasHead(s.preparations, k);
      var h :| Heads(s.preparations, h, k);
      var i :| 0 <= i < |s.order| && s.order[i] == h;
    }
    forall k | k in s.preparations && IsLive(s.preparations[k], e)
      ensures Active(s, e) == Some(s.preparations[k])
    {
      var p := Active(s, e).value;
      assert SameExecution(s.preparations, p.input.preparationId, k);
    }
  }

  // ---- inserting a fresh preparation ---------------------------------------------------------------

  ghost predicate NoConflict(ps: Preparations, input: PreparationInput) {
    forall k :: k in ps ==> UniquenessRefusal(ps[k], input).None?
  }

  lemma NoConflictInStore(s: Store, input: PreparationInput)
    requires Indexed(s) && FirstConflict(s.order, s.preparations, input).None?
    ensures NoConflict(s.preparations, input)
    ensures input.preparationId !in s.preparations
  {
    ConflictFree(s.order, s.preparations, input);
    forall k | k in s.preparations ensures UniquenessRefusal(s.preparations[k], input).None? {
      var i :| 0 <= i < |s.order| && s.order[i] == k;
    }
  }

  lemma InsertIndexed(s: Store, p: Preparation)
    requires Indexed(s) && p.input.preparationId !in s.preparations
    ensures Indexed(Insert(s, p))
  {
  }

  lemma InsertUnique(ps: Preparations, p: Preparation)
    requires Unique(ps) && OwnKeys(ps) && NoConflict(ps, p.input) && Checked(p)
    ensures Unique(ps[p.input.preparationId := p])
  {
    var qs := ps[p.input.preparationId := p];
    forall j, k ensures Distinct(qs, j, k) { assert Distinct(ps, j, k); }
    forall k | k in qs ensures Checked(qs[k]) { assert k in ps ==> Checked(ps[k]); }
  }

  /** Preparations are stored under their own ids. */
  ghost predicate OwnKeys(ps: Preparations) { forall k :: k in ps ==> ps[k].input.preparationId == k }

  /** The first preparation of an execution starts its chain. */
  lemma InsertFirst(ps: Preparations, p: Preparation)
    requires Chained(ps) && p.input.preparationId !in ps && !p.state.AbandonedPreContact?
    requires forall k :: k in ps ==> ps[k].input.executionId != p.input.executionId
    ensures Chained(ps[p.input.preparationId := p])
  {
    var id := p.input.preparationId;
    var qs := ps[id := p];
    forall j, k | SameExecution(qs, j, k) ensures Siblings(qs[j], qs[k]) {
      if j != id { assert SameExecution(ps, j, k); }
    }
    forall j | j in qs ensures HasHead(qs, j) {
      if j == id { assert Heads(qs, id, id); } else { HeadStays(ps, qs, j); }
    }
    forall j | j in qs && qs[j].state.AbandonedPreContact? ensures HasNext(qs, j) { NextStays(ps, qs, j); }
  }

  lemma HeadStays(ps: Preparations, qs: Preparations, j: Id)
    requires HasHead(ps, j)
    requires forall k :: SameExecution(ps, j, k) ==>
               k in qs && qs[k].input == ps[k].input
               && qs[k].state.AbandonedPreContact? == ps[k].state.AbandonedPreContact?
    ensures HasHead(qs, j)
  {
    var k :| Heads(ps, k, j);
    assert SameExecution(ps, j, j);
    assert Heads(qs, k, j);
  }

  lemma NextStays(ps: Preparations, qs: Preparations, j: Id)
    requires HasNext(ps, j)
    requires forall k :: k in ps ==> k in qs && qs[k].input == ps[k].input
    ensures HasNext(qs, j)
  {
    var k :| Supersedes(ps, k, j);
    assert Supersedes(qs, k, j);
  }

  lemma LiveIsHighest(ps: Preparations, live: Id, j: Id)
    requires Chained(ps) && OwnKeys(ps) && SameExecution(ps, j, live) && !ps[live].state.AbandonedPreContact?
    ensures ps[j].input.generation <= ps[live].input.generation
  {
    assert HasHead(ps, j);
    var h :| Heads(ps, h, j);
    assert SameExecution(ps, h, live);
  }

  /** Abandoning the live preparation and adding the next generation keeps the chain. */
  lemma InsertNext(ps: Preparations, prior: Id, at: Timestamp, p: Preparation)
    requires Chained(ps) && OwnKeys(ps) && prior in ps && p.input.preparationId !in ps
    requires !ps[prior].state.AbandonedPreContact? && !p.state.AbandonedPreContact?
    requires p.input.executionId == ps[prior].input.executionId
    requires p.input.actorSubject == ps[prior].input.actorSubject
    requires p.input.generation == ps[prior].input.generation + 1
    ensures Chained(ps[prior := Abandoned(ps[prior], at)][p.input.preparationId := p])
  {
    var id := p.input.preparationId;
    var qs := ps[prior := Abandoned(ps[prior], at)][id := p];
    forall j, k | SameExecution(qs, j, k) ensures Siblings(qs[j], qs[k]) {
      InsertNextSiblings(ps, prior, at, p, j, k);
    }
    forall j | j in qs ensures HasHead(qs, j) {
      if qs[j].input.executionId == p.input.executionId {
        if j != id { LiveIsHighest(ps, prior, j); }
        assert Heads(qs, id, j);
      } else {
        HeadStays(ps, qs, j);
      }
    }
    forall j | j in qs && qs[j].state.AbandonedPreContact? ensures HasNext(qs, j) {
      if j == prior { assert Supersedes(qs, id, prior); } else { NextStays(ps, qs, j); }
    }
  }

  lemma InsertNextSiblings(ps: Preparations, prior: Id, at: Timestamp, p: Preparation, j: Id, k: Id)
    requires Chained(ps) && OwnKeys(ps) && prior in ps && p.input.preparationId !in ps
    requires !ps[prior].state.AbandonedPreContact?
    requires p.input.executionId == ps[prior].input.executionId
    requires p.input.actorSubject == ps[prior].input.actorSubject
    requires p.input.generation == ps[prior].input.generation + 1
    requires SameExecution(ps[prior := Abandoned(ps[prior], at)][p.input.preparationId := p], j, k)
    ensures var qs := ps[prior := Abandoned(ps[prior], at)][p.input.preparationId := p];
            Siblings(qs[j], qs[k])
  {
    var id := p.input.preparationId;
    if j != id && k != id { assert SameExecution(ps, j, k); }
    if j != id && k == id { assert SameExecution(ps, j, prior); LiveIsHighest(ps, prior, j); }
    if j == id && k != id { assert SameExecution(ps, k, prior); LiveIsHighest(ps, prior, k); }
  }

  // ---- changing the state of the live preparation --------------------------------------------------

  /** p replaces the stored preparation with the same input, and both are live. */
  ghost predicate Restates(ps: Preparations, p: Preparation) {
    && p.input.preparationId in ps && ps[p.input.preparationId].input == p.input
    && !p.state.AbandonedPreContact? && !ps[p.input.preparationId].state.AbandonedPreContact?
  }

  lemma UpdateIndexed(s: Store, p: Preparation)
    requires Indexed(s) && p.input.preparationId in s.preparations
    ensures Indexed(Update(s, p))
  {
  }

  lemma UpdateUnique(ps: Preparations, p: Preparation)
    requires Unique(ps) && p.input.preparationId in ps && ps[p.input.preparationId].input == p.input
    ensures Unique(ps[p.input.preparationId := p])
  {
    var qs := ps[p.input.preparationId := p];
    forall j, k ensures Distinct(qs, j, k) { assert Distinct(ps, j, k); }
    forall k | k in qs ensures Checked(qs[k]) { assert Checked(ps[k]); }
  }

  lemma UpdateChained(ps: Preparations, p: Preparation)
    requires Chained(ps) && Restates(ps, p)
    ensures Chained(ps[p.input.preparationId := p])
  {
    var qs := ps[p.input.preparationId := p];
    forall j, k | SameExecution(qs, j, k) ensures Siblings(qs[j], qs[k]) { assert SameExecution(ps, j, k); }
    forall j | j in qs ensures HasHead(qs, j) { HeadStays(ps, qs, j); }
    forall j | j in qs && qs[j].state.AbandonedPreContact? ensures HasNext(qs, j) { NextStays(ps, qs, j); }
  }

  // ---- commitments and logs ------------------------------------------------------------------------

  type Commitments = map<Id, Commitment>

  lemma InsertCommitted(ps: Preparations, cs: Commitments, p: Preparation)
    requires Committed(ps, cs) && p.input.preparationId !in ps && p.state.PreparedNotContacted?
    ensures Committed(ps[p.input.preparationId := p], cs)
  {
    var qs := ps[p.input.preparationId := p];
    forall e | e in cs ensures Matches(qs, cs, e) { assert Matches(ps, cs, e); }
    forall k ensures CommittedBy(qs, cs, k) { assert CommittedBy(ps, cs, k); }
  }

  lemma AbandonCommitted(ps: Preparations, cs: Commitments, prior: Id, at: Timestamp)
    requires Committed(ps, cs) && prior in ps && ps[prior].state.PreparedNotContacted?
    ensures Committed(ps[prior := Abandoned(ps[prior], at)], cs)
  {
    var qs := ps[prior := Abandoned(ps[prior], at)];
    forall e | e in cs ensures Matches(qs, cs, e) { assert Matches(ps, cs, e); }
    forall k ensures CommittedBy(qs, cs, k) { assert CommittedBy(ps, cs, k); }
  }

  lemma RecordCommitted(ps: Preparations, cs: Commitments, p: Preparation)
    requires Committed(ps, cs) && Restates(ps, p) && IsPastContact(p.state)
    requires IsPastContact(ps[p.input.preparationId].state)
    ensures Committed(ps[p.input.preparationId := p], cs)
  {
    var qs := ps[p.input.preparationId := p];
    forall e | e in cs ensures Matches(qs, cs, e) { assert Matches(ps, cs, e); }
    forall k ensures CommittedBy(qs, cs, k) { assert CommittedBy(ps, cs, k); }
  }

  lemma CommitCommitted(ps: Preparations, cs: Commitments, p: Preparation, c: Commitment)
    requires Committed(ps, cs) && Chained(ps) && OwnKeys(ps) && Restates(ps, p) && p.state.SubmissionCommitted?
    requires c.preparationId == p.input.preparationId && c.executionId == p.input.executionId && c.executionId !in cs
    requires c.signature == p.input.artifact.signature
    requires c.signedTransactionDigest == p.input.artifact.signedTransactionDigest
    ensures Committed(ps[p.input.preparationId := p], cs[c.executionId := c])
  {
    var qs, ds := ps[p.input.preparationId := p], cs[c.executionId := c];
    forall e | e in ds ensures Matches(qs, ds, e) {
      if e != c.executionId { assert Matches(ps, cs, e); }
    }
    forall k ensures CommittedBy(qs, ds, k) {
      assert CommittedBy(ps, cs, k);
      if k in qs && qs[k].input.executionId == c.executionId { assert SameExecution(ps, k, p.input.preparationId); }
    }
  }

  lemma AppendReconciliationAgrees(state: LifecycleState, r: seq<Reconciliation>, s: seq<SubmissionEvidence>,
                                   o: Reconciliation)
    requires Agrees(state, r, s) && ReconciliationLifecycle(state, o.evidence.outcome).Ok?
    ensures Agrees(ReconciliationLifecycle(state, o.evidence.outcome).value, r + [o], s)
  {
    var grown := r + [o];
    forall i | 0 <= i < |grown| - 1 ensures !EndsR(grown[i]) { assert i == |r| - 1 || !EndsR(r[i]); }
  }

  lemma AppendSubmissionAgrees(state: LifecycleState, r: seq<Reconciliation>, s: seq<SubmissionEvidence>,
                               o: SubmissionEvidence)
    requires Agrees(state, r, s) && SubmissionLifecycle(state, o.outcome).Ok?
    ensures Agrees(SubmissionLifecycle(state, o.outcome).value, r, s + [o])
  {
    var grown := s + [o];
    forall i | 0 <= i < |grown| - 1 ensures !EndsS(grown[i]) { assert i == |s| - 1 || !EndsS(s[i]); }
  }

  lemma AppendNumbered(log: seq<Reconciliation>, v: ReconciliationEvidence)
    requires NumberedLog(log) && !HasReconciliationId(log, v.observationId)
    requires log != [] ==> !SameReconciliation(log[|log| - 1].evidence, v)
    ensures NumberedLog(log + [Reconciliation(v, |log| + 1)])
  {
  }

  lemma AppendDistinct(log: seq<SubmissionEvidence>, v: SubmissionEvidence)
    requires DistinctIds(log) && !HasSubmissionId(log, v.observationId)
    ensures DistinctIds(log + [v])
  {
  }

  /** An execution whose commitment, preparation and logs are carried over stays logged. */
  lemma LoggedCarriesOver(s: Store, t: Store, e: Id)
    requires LoggedAll(s) && e in s.commitments && e in t.commitments && t.commitments[e] == s.commitments[e]
    requires s.commitments[e].preparationId in t.preparations
    requires s.commitments[e].preparationId in s.preparations ==>
               t.preparations[s.commitments[e].preparationId] == s.preparations[s.commitments[e].preparationId]
    requires ReconciliationLog(t, e) == ReconciliationLog(s, e) && SubmissionLog(t, e) == SubmissionLog(s, e)
    ensures LoggedAt(t, e)
  {
    assert LoggedAt(s, e);
  }

  lemma InsertLogged(s: Store, p: Preparation)
    requires LoggedAll(s) && p.input.preparationId !in s.preparations
    ensures LoggedAll(Insert(s, p))
  {
    forall e | e in s.commitments ensures LoggedAt(Insert(s, p), e) {
      assert LoggedAt(s, e);
      LoggedCarriesOver(s, Insert(s, p), e);
    }
  }

  lemma AbandonLogged(s: Store, prior: Id, at: Timestamp)
    requires LoggedAll(s) && Committed(s.preparations, s.commitments) && prior in s.preparations
    requires s.preparations[prior].input.preparationId == prior
    requires s.preparations[prior].state.PreparedNotContacted?
    ensures LoggedAll(Update(s, Abandoned(s.preparations[prior], at)))
  {
    var t := Update(s, Abandoned(s.preparations[prior], at));
    forall e | e in s.commitments ensures LoggedAt(t, e) {
      assert Matches(s.preparations, s.commitments, e);
      LoggedCarriesOver(s, t, e);
    }
  }

  /** Only the execution of the restated preparation needs its logs looked at again. */
  lemma RestateLogged(s: Store, t: Store, q: Preparation)
    requires LoggedAll(s) && Committed(s.preparations, s.commitments) && q.input.preparationId in s.preparations
    requires s.preparations[q.input.preparationId].input == q.input
    requires t.preparations == s.preparations[q.input.preparationId := q]
    requires t.commitments.Keys == s.commitments.Keys + {q.input.executionId}
    requires forall e :: e in s.commitments && e != q.input.executionId ==> t.commitments[e] == s.commitments[e]
    requires t.reconciliations.Keys <= t.commitments.Keys && t.submissions.Keys <= t.commitments.Keys
    requires forall e :: e != q.input.executionId ==>
               ReconciliationLog(t, e) == ReconciliationLog(s, e) && SubmissionLog(t, e) == SubmissionLog(s, e)
    requires LoggedAt(t, q.input.executionId)
    ensures LoggedAll(t)
  {
    forall e | e in t.commitments ensures LoggedAt(t, e) {
      if e != q.input.executionId {
        assert Matches(s.preparations, s.commitments, e);
        LoggedCarriesOver(s, t, e);
      }
    }
  }

  lemma RestateValid(s: Store, q: Preparation)
    requires Indexed(s) && Unique(s.preparations) && Chained(s.preparations)
    requires Committed(s.preparations, s.commitments)
    requires Restates(s.preparations, q) && IsPastContact(q.state)
    requires IsPastContact(s.preparations[q.input.preparationId].state)
    ensures var t := Update(s, q);
            Indexed(t) && Unique(t.preparations) && Chained(t.preparations) && Committed(t.preparations, t.commitments)
  {
    UpdateIndexed(s, q);
    UpdateUnique(s.preparations, q);
    UpdateChained(s.preparations, q);
    RecordCommitted(s.preparations, s.commitments, q);
  }

  // ---- each call keeps the store valid ---------------------------------------------------------------

  lemma PersistValid(s: Store, input: PreparationInput)
    requires Valid(s)
    ensures Valid(PersistPreparation(s, input).0)
  {
    var p := Fresh(input);
    if PersistPreparation(s, input).1.Ok? {
      NoConflictInStore(s, input);
      ActiveIsTheLiveOne(s, input.executionId);
      InsertIndexed(s, p);
      InsertUnique(s.preparations, p);
      InsertFirst(s.preparations, p);
      InsertCommitted(s.preparations, s.commitments, p);
      InsertLogged(s, p);
    }
  }

  lemma ReplaceValid(s: Store, priorId: Id, input: PreparationInput, at: Timestamp)
    requires Valid(s)
    ensures Valid(ReplaceExpiredPreparation(s, priorId, input, at).0)
  {
    if ReplaceExpiredPreparation(s, priorId, input, at).1.Ok? {
      NoConflictInStore(s, input);
      InsertNext(s.preparations, priorId, at, Fresh(input));
      AbandonThenInsert(s, priorId, at, Fresh(input));
    }
  }

  lemma AbandonThenInsert(s: Store, prior: Id, at: Timestamp, p: Preparation)
    requires Indexed(s) && Unique(s.preparations) && Committed(s.preparations, s.commitments) && LoggedAll(s)
    requires prior in s.preparations && s.preparations[prior].state.PreparedNotContacted?
    requires p.state.PreparedNotContacted? && Checked(p)
    requires p.input.preparationId !in s.preparations && NoConflict(s.preparations, p.input)
    ensures var t := Insert(Update(s, Abandoned(s.preparations[prior], at)), p);
            Indexed(t) && Unique(t.preparations) && Committed(t.preparations, t.commitments) && LoggedAll(t)
  {
    var a := Abandoned(s.preparations[prior], at);
    var t := Update(s, a);
    UpdateIndexed(s, a);
    InsertIndexed(t, p);
    UpdateUnique(s.preparations, a);
    InsertUnique(t.preparations, p);
    AbandonCommitted(s.preparations, s.commitments, prior, at);
    InsertCommitted(t.preparations, t.commitments, p);
    AbandonLogged(s, prior, at);
    InsertLogged(t, p);
  }

  lemma CommitValid(s: Store, r: CommitRequest)
    requires Valid(s)
    ensures Valid(CommitSubmission(s, r).0)
  {
    var reply := CommitSubmission(s, r).1;
    if reply.Ok? && reply.value.submissionAuthorized {
      var p := reply.value.preparation;
      UpdateIndexed(s, p);
      UpdateUnique(s.preparations, p);
      UpdateChained(s.preparations, p);
      CommitCommitted(s.preparations, s.commitments, p, CommitmentFor(r, p));
      CommittedLogged(s, r);
    }
  }

  lemma CommittedLogged(s: Store, r: CommitRequest)
    requires Valid(s) && CommitSubmission(s, r).1.Ok? && CommitSubmission(s, r).1.value.submissionAuthorized
    ensures LoggedAll(CommitSubmission(s, r).0)
  {
    var t := CommitSubmission(s, r).0;
    assert ReconciliationLog(t, r.executionId) == [] && SubmissionLog(t, r.executionId) == [];
    RestateLogged(s, t, CommitSubmission(s, r).1.value.preparation);
  }

  /** A recorded signature identifies the committed, live preparation. */
  lemma RecordedIsCommitted(s: Store, id: Id, e: Id)
    requires Unique(s.preparations) && Committed(s.preparations, s.commitments)
    requires id in s.preparations && e in s.commitments
    requires s.preparations[id].input.artifact.signature == s.commitments[e].signature
    ensures s.commitments[e].preparationId == id && IsPastContact(s.preparations[id].state)
  {
    assert Distinct(s.preparations, id, s.commitments[e].preparationId);
    assert Matches(s.preparations, s.commitments, e);
  }

  lemma AppendReconciliationLogged(p: Preparation, c: Commitment, r: seq<Reconciliation>,
                                   s: seq<SubmissionEvidence>, v: ReconciliationEvidence)
    requires Logged(p, c, r, s) && ReconciliationLifecycle(p.state, v.outcome).Ok?
    requires !HasReconciliationId(r, v.observationId)
    requires r != [] ==> !SameReconciliation(r[|r| - 1].evidence, v)
    requires v.executionId == c.executionId && v.preparationId == c.preparationId && v.signature == c.signature
    requires v.providerId == p.input.artifact.reconciliationProviderId
    ensures Logged(p.(state := ReconciliationLifecycle(p.state, v.outcome).value), c,
                   r + [Reconciliation(v, |r| + 1)], s)
  {
    AppendReconciliationAgrees(p.state, r, s, Reconciliation(v, |r| + 1));
    AppendNumbered(r, v);
  }

  lemma AppendSubmissionLogged(p: Preparation, c: Commitment, r: seq<Reconciliation>,
                               s: seq<SubmissionEvidence>, v: SubmissionEvidence)
    requires Logged(p, c, r, s) && SubmissionLifecycle(p.state, v.outcome).Ok?
    requires !HasSubmissionId(s, v.observationId)
    requires v.executionId == c.executionId && v.preparationId == c.preparationId && v.signature == c.signature
    requires v.commitmentId == c.commitmentId && v.providerId == p.input.artifact.submissionProviderId
    ensures Logged(p.(state := SubmissionLifecycle(p.state, v.outcome).value), c, r, s + [v])
  {
    AppendSubmissionAgrees(p.state, r, s, v);
    AppendDistinct(s, v);
  }

  /** What a reconciliation call that changes the store has checked. */
  lemma ReconcileEffect(s: Store, v: ReconciliationEvidence, fence: Fence)
    requires RecordReconciliation(s, v, fence).0 != s
    ensures MayReconcile(s, v) && ReconciliationRefusal(v, fence).None?
    ensures s.preparations[v.preparationId].input.actorSubject == v.actorSubject
    ensures RecordReconciliation(s, v, fence).0 == Reconciled(s, v)
  {
  }

  function Reconciled(s: Store, v: ReconciliationEvidence): Store
    requires v.preparationId in s.preparations
    requires ReconciliationLifecycle(s.preparations[v.preparationId].state, v.outcome).Ok?
  {
    var p, log := s.preparations[v.preparationId], ReconciliationLog(s, v.executionId);
    Update(s, p.(state := ReconciliationLifecycle(p.state, v.outcome).value))
      .(reconciliations := s.reconciliations[v.executionId := log + [Reconciliation(v, |log| + 1)]])
  }

  lemma ReconcileValid(s: Store, v: ReconciliationEvidence, fence: Fence)
    requires Valid(s)
    ensures Valid(RecordReconciliation(s, v, fence).0)
  {
    if RecordReconciliation(s, v, fence).0 != s {
      ReconcileEffect(s, v, fence);
      ReconciledValid(s, v);
    }
  }

  ghost predicate MayReconcile(s: Store, v: ReconciliationEvidence) {
    && v.preparationId in s.preparations && v.executionId in s.commitments
    && var p, log := s.preparations[v.preparationId], ReconciliationLog(s, v.executionId);
       && p.input.executionId == v.executionId
       && v.providerId == p.input.artifact.reconciliationProviderId
       && v.signature == p.input.artifact.signature == s.commitments[v.executionId].signature
       && ReconciliationLifecycle(p.state, v.outcome).Ok? && !HasReconciliationId(log, v.observationId)
       && (log != [] ==> !SameReconciliation(log[|log| - 1].evidence, v))
  }

  lemma ReconciledLogged(s: Store, v: ReconciliationEvidence)
    requires MayReconcile(s, v) && LoggedAt(s, v.executionId)
    requires s.commitments[v.executionId].executionId == v.executionId
    requires s.commitments[v.executionId].preparationId == v.preparationId
    requires s.preparations[v.preparationId].input.preparationId == v.preparationId
    ensures LoggedAt(Reconciled(s, v), v.executionId)
  {
    var e := v.executionId;
    AppendReconciliationLogged(s.preparations[v.preparationId], s.commitments[e],
                               ReconciliationLog(s, e), SubmissionLog(s, e), v);
  }

  lemma ReconciledIsLogged(s: Store, v: ReconciliationEvidence)
    requires Valid(s) && MayReconcile(s, v)
    ensures s.commitments[v.executionId].preparationId == v.preparationId
    ensures LoggedAt(Reconciled(s, v), v.executionId)
  {
    RecordedIsCommitted(s, v.preparationId, v.executionId);
    assert LoggedAt(s, v.executionId) && Matches(s.preparations, s.commitments, v.executionId);
    ReconciledLogged(s, v);
  }

  lemma ReconciledValid(s: Store, v: ReconciliationEvidence)
    requires Valid(s) && MayReconcile(s, v)
    ensures Valid(Reconciled(s, v))
  {
    var t := Reconciled(s, v);
    ReconciledIsLogged(s, v);
    RestateValid(s, t.preparations[v.preparationId]);
    RestateLogged(s, t, t.preparations[v.preparationId]);
  }

  /** What a submission record that changes the store has checked. */
  lemma SubmitEffect(s: Store, v: SubmissionEvidence, actor: Id)
    requires RecordSubmission(s, v, actor).0 != s
    ensures MaySubmit(s, v) && SubmissionRefusal(v).None?
    ensures s.preparations[v.preparationId].input.actorSubject == actor
    ensures RecordSubmission(s, v, actor).0 == Submitted(s, v)
  {
  }

  ghost predicate MaySubmit(s: Store, v: SubmissionEvidence) {
    && v.preparationId in s.preparations && v.executionId in s.commitments
    && var p, c := s.preparations[v.preparationId], s.commitments[v.executionId];
       && p.input.executionId == v.executionId
       && v.commitmentId == c.commitmentId && v.signature == c.signature
       && v.providerId == p.input.artifact.submissionProviderId
       && SubmissionLifecycle(p.state, v.outcome).Ok?
       && !HasSubmissionId(SubmissionLog(s, v.executionId), v.observationId)
  }

  function Submitted(s: Store, v: SubmissionEvidence): Store
    requires v.preparationId in s.preparations
    requires SubmissionLifecycle(s.preparations[v.preparationId].state, v.outcome).Ok?
  {
    var p := s.preparations[v.preparationId];
    Update(s, p.(state := SubmissionLifecycle(p.state, v.outcome).value))
      .(submissions := s.submissions[v.executionId := SubmissionLog(s, v.executionId) + [v]])
  }

  lemma SubmitValid(s: Store, v: SubmissionEvidence, actor: Id)
    requires Valid(s)
    ensures Valid(RecordSubmission(s, v, actor).0)
  {
    if RecordSubmission(s, v, actor).0 != s {
      SubmitEffect(s, v, actor);
      SubmittedValid(s, v);
    }
  }

  lemma SubmittedLogged(s: Store, v: SubmissionEvidence)
    requires MaySubmit(s, v) && LoggedAt(s, v.executionId) && s.commitments[v.executionId].executionId == v.executionId
    requires s.commitments[v.executionId].preparationId == v.preparationId
    requires s.preparations[v.preparationId].input.preparationId == v.preparationId
    ensures LoggedAt(Submitted(s, v), v.executionId)
  {
    var e := v.executionId;
    AppendSubmissionLogged(s.preparations[v.preparationId], s.commitments[e],
                           ReconciliationLog(s, e), SubmissionLog(s, e), v);
  }

  lemma SubmittedIsLogged(s: Store, v: SubmissionEvidence)
    requires Valid(s) && MaySubmit(s, v)
    ensures s.commitments[v.executionId].preparationId == v.preparationId
    ensures LoggedAt(Submitted(s, v), v.executionId)
  {
    assert CommittedBy(s.preparations, s.commitments, v.preparationId);
    assert LoggedAt(s, v.executionId) && Matches(s.preparations, s.commitments, v.executionId);
    SubmittedLogged(s, v);
  }

  lemma SubmittedValid(s: Store, v: SubmissionEvidence)
    requires Valid(s) && MaySubmit(s, v)
    ensures s.commitments[v.executionId].preparationId == v.preparationId
    ensures Valid(Submitted(s, v))
  {
    var t := Submitted(s, v);
    SubmittedIsLogged(s, v);
    RestateValid(s, t.preparations[v.preparationId]);
    RestateLogged(s, t, t.preparations[v.preparationId]);
  }

  lemma ApplyValid(s: Store, c: Call)
    requires Valid(s)
    ensures Valid(Apply(s, c))
  {
    match c
    case Persist(input) => PersistValid(s, input);
    case ReplaceExpired(id, input, at) => ReplaceValid(s, id, input, at);
    case Commit(r) => CommitValid(s, r);
    case Reconcile(v, fence) => ReconcileValid(s, v, fence);
    case Submit(v, actor) => SubmitValid(s, v, actor);
  }
}
