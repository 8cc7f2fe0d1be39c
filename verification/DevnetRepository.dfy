/**
 The in-memory Devnet execution-state repository. Its promise queue runs one call at a time, so each method
 here is one atomic step; its specification is the call of the same name on the store.
 */
module DevnetRepository {
  import opened Wrappers
  import opened DevnetLifecycle
  import opened DevnetStore
  import opened DevnetStoreInvariant

  class InMemoryDevnetExecutionStateRepository {
    var order: seq<Id>
    var preparations: map<Id, Preparation>
    var commitments: map<Id, Commitment>
    var observations: map<Id, seq<Reconciliation>>
    var submissionObservations: map<Id, seq<SubmissionEvidence>>

    function Contents(): Store
      reads this
    {
      Store(order, preparations, commitments, observations, submissionObservations)
    }

    constructor ()
      ensures Contents() == EMPTY && Valid(Contents())
    {
      order, preparations, commitments := [], map[], map[];
      observations, submissionObservations := map[], map[];
    }

    /** `Map.set` on the preparations: a new key goes to the end of the order, an old one keeps its place. */
    method SetPreparation(p: Preparation)
      modifies this`order, this`preparations
      ensures preparations == old(preparations)[p.input.preparationId := p]
      ensures order == if p.input.preparationId in old(preparations) then old(order)
                       else old(order) + [p.input.preparationId]
    {
      if p.input.preparationId !in preparations { order := order + [p.input.preparationId]; }
      preparations := preparations[p.input.preparationId := p];
    }

    method FindActive(executionId: Id) returns (r: Option<Preparation>)
      requires Indexed(Contents())
      ensures r == Active(Contents(), executionId)
    {
      var i := 0;
      while i < |order|
        invariant 0 <= i <= |order|
        invariant FirstLive(order, preparations, executionId) == FirstLive(order[i..], preparations, executionId)
      {
        if IsLive(preparations[order[i]], executionId) { return Some(preparations[order[i]]); }
        i := i + 1;
      }
      r := None;
    }

    method AssertUnique(input: PreparationInput) returns (r: Option<Refusal>)
      requires Indexed(Contents())
      ensures r == FirstConflict(order, preparations, input)
    {
      var i := 0;
      while i < |order|
        invariant 0 <= i <= |order|
        invariant FirstConflict(order, preparations, input) == FirstConflict(order[i..], preparations, input)
      {
        var value := preparations[order[i]];
        if value.input.preparationId == input.preparationId { return Some(PreparationIdExists); }
        if value.input.artifact.signature == input.artifact.signature { return Some(SignatureExists); }
        if value.input.artifact.signedTransactionDigest == input.artifact.signedTransactionDigest {
          return Some(DigestExists);
        }
        i := i + 1;
      }
      r := None;
    }

    method PersistPreparation(input: PreparationInput) returns (r: Result<Preparation, Refusal>)
      requires Valid(Contents())
      modifies this
      ensures (Contents(), r) == DevnetStore.PersistPreparation(old(Contents()), input)
      ensures Valid(Contents())
    {
      PersistValid(Contents(), input);
      var refusal := ArtifactRefusal(input);
      if refusal.Some? { return Err(refusal.value); }
      var conflict := AssertUnique(input);
      if conflict.Some? { return Err(conflict.value); }
      var active := FindActive(input.executionId);
      if active.Some? { return Err(AlreadyActive); }
      NoConflictInStore(Contents(), input);
      var value := Fresh(input);
      SetPreparation(value);
      r := Ok(value);
    }

    method ReplaceExpiredPreparation(priorId: Id, replacement: PreparationInput, abandonedAt: Timestamp)
      returns (r: Result<Preparation, Refusal>)
      requires Valid(Contents())
      modifies this
      ensures (Contents(), r)
              == DevnetStore.ReplaceExpiredPreparation(old(Contents()), priorId, replacement, abandonedAt)
      ensures Valid(Contents())
    {
      ReplaceValid(Contents(), priorId, replacement, abandonedAt);
      var refusal := ArtifactRefusal(replacement);
      if refusal.Some? { return Err(refusal.value); }
      if priorId !in preparations { return Err(PriorNotFound); }
      var prior := preparations[priorId];
      if prior.input.executionId != replacement.executionId || prior.input.actorSubject != replacement.actorSubject {
        return Err(PriorNotFound);
      }
      if !prior.state.PreparedNotContacted? || prior.input.executionId in commitments {
        return Err(CommittedIsReconciliationOnly);
      }
      if replacement.generation != prior.input.generation + 1 { return Err(GenerationMustIncrement); }
      var conflict := AssertUnique(replacement);
      if conflict.Some? { return Err(conflict.value); }
      NoConflictInStore(Contents(), replacement);
      Supersede(Abandoned(prior, abandonedAt), Fresh(replacement));
      r := Ok(Fresh(replacement));
    }

    /** Restates the abandoned preparation in its place and appends its successor. */
    method Supersede(abandoned: Preparation, value: Preparation)
      requires abandoned.input.preparationId in preparations && value.input.preparationId !in preparations
      modifies this`order, this`preparations
      ensures Contents() == Insert(Update(old(Contents()), abandoned), value)
    {
      SetPreparation(abandoned);
      SetPreparation(value);
    }

    method CommitSubmission(request: CommitRequest) returns (r: Result<CommitReply, Refusal>)
      requires Valid(Contents())
      modifies this
      ensures (Contents(), r) == DevnetStore.CommitSubmission(old(Contents()), request)
      ensures Valid(Contents())
    {
      CommitValid(Contents(), request);
      if request.executionId in commitments {
        var existing := commitments[request.executionId];
        if existing.preparationId != request.preparationId || existing.commitmentId != request.commitmentId {
          return Err(CommitmentConflict);
        }
        assert Matches(preparations, commitments, request.executionId);
        return Ok(CommitReply(preparations[existing.preparationId], existing, false));
      }
      if request.preparationId !in preparations { return Err(PreparationNotFound); }
      var preparation := preparations[request.preparationId];
      if preparation.input.executionId != request.executionId
         || preparation.input.actorSubject != request.actorSubject {
        return Err(PreparationNotFound);
      }
      if !preparation.state.PreparedNotContacted? { return Err(NotNeverContacted); }
      var commitment := CommitmentFor(request, preparation);
      var committed := preparation.(state := SubmissionCommitted, committedAt := Some(request.committedAt));
      commitments := commitments[request.executionId := commitment];
      SetPreparation(committed);
      r := Ok(CommitReply(committed, commitment, true));
    }

    method RecordReconciliationObservation(v: ReconciliationEvidence, fence: Fence)
      returns (r: Result<ReconciliationReply, Refusal>)
      requires Valid(Contents())
      modifies this
      ensures (Contents(), r) == RecordReconciliation(old(Contents()), v, fence)
      ensures Valid(Contents())
    {
      ReconcileValid(Contents(), v, fence);
      var refusal := ReconciliationRefusal(v, fence);
      if refusal.Some? { return Err(refusal.value); }
      if v.preparationId !in preparations { return Err(PreparationNotFound); }
      var preparation := preparations[v.preparationId];
      if preparation.input.executionId != v.executionId || preparation.input.actorSubject != v.actorSubject {
        return Err(PreparationNotFound);
      }
      if v.providerId != preparation.input.artifact.reconciliationProviderId { return Err(ProviderMismatch); }
      if v.executionId !in commitments || v.signature != preparation.input.artifact.signature
         || v.signature != commitments[v.executionId].signature {
        return Err(SignatureMismatch);
      }
      var list := if v.executionId in observations then observations[v.executionId] else [];
      if list != [] && (IsTerminal(preparation.state) || SameReconciliation(list[|list| - 1].evidence, v)) {
        return Ok(ReconciliationReply(preparation, list[|list| - 1]));
      }
      var state := ReconciliationLifecycle(preparation.state, v.outcome);
      if state.Err? { return Err(state.error); }
      var taken := HasObservationId(list, v.observationId);
      if taken { return Err(ObservationIdExists); }
      var reply := AppendReconciliation(preparation.(state := state.value), list, v);
      r := Ok(reply);
    }

    method AppendReconciliation(updated: Preparation, list: seq<Reconciliation>, v: ReconciliationEvidence)
      returns (r: ReconciliationReply)
      requires updated.input.preparationId in preparations
      modifies this
      ensures var entry := Reconciliation(v, |list| + 1);
              && Contents() == Update(old(Contents()), updated)
                               .(reconciliations := old(observations)[v.executionId := list + [entry]])
              && r == ReconciliationReply(updated, entry)
    {
      var observation := Reconciliation(v, |list| + 1);
      observations := observations[v.executionId := list + [observation]];
      SetPreparation(updated);
      r := ReconciliationReply(updated, observation);
    }

    /** `list.some(value => value.observationId === id)`. */
    method HasObservationId(list: seq<Reconciliation>, id: Id) returns (found: bool)
      ensures found <==> HasReconciliationId(list, id)
    {
      for i := 0 to |list|
        invariant forall j :: 0 <= j < i ==> list[j].evidence.observationId != id
      {
        if list[i].evidence.observationId == id { return true; }
      }
      found := false;
    }

    method HasSubmissionObservationId(list: seq<SubmissionEvidence>, id: Id) returns (found: bool)
      ensures found <==> HasSubmissionId(list, id)
    {
      for i := 0 to |list|
        invariant forall j :: 0 <= j < i ==> list[j].observationId != id
      {
        if list[i].observationId == id { return true; }
      }
      found := false;
    }

    method RecordSubmissionObservation(v: SubmissionEvidence, actorSubject: Id)
      returns (r: Result<SubmissionReply, Refusal>)
      requires Valid(Contents())
      modifies this
      ensures (Contents(), r) == RecordSubmission(old(Contents()), v, actorSubject)
      ensures Valid(Contents())
    {
      SubmitValid(Contents(), v, actorSubject);
      var refusal := SubmissionRefusal(v);
      if refusal.Some? { return Err(refusal.value); }
      if v.preparationId !in preparations { return Err(CommittedPreparationNotFound); }
      var preparation := preparations[v.preparationId];
      if preparation.input.executionId != v.executionId || preparation.input.actorSubject != actorSubject
         || v.executionId !in commitments || commitments[v.executionId].commitmentId != v.commitmentId {
        return Err(CommittedPreparationNotFound);
      }
      if v.providerId != preparation.input.artifact.submissionProviderId
         || v.signature != commitments[v.executionId].signature {
        return Err(ProviderMismatch);
      }
      var state := SubmissionLifecycle(preparation.state, v.outcome);
      if state.Err? { return Err(state.error); }
      var list := if v.executionId in submissionObservations then submissionObservations[v.executionId] else [];
      var taken := HasSubmissionObservationId(list, v.observationId);
      if taken { return Err(ObservationIdExists); }
      var reply := AppendSubmission(preparation.(state := state.value), list, v);
      r := Ok(reply);
    }

    method AppendSubmission(updated: Preparation, list: seq<SubmissionEvidence>, v: SubmissionEvidence)
      returns (r: SubmissionReply)
      requires updated.input.preparationId in preparations
      modifies this
      ensures Contents() == Update(old(Contents()), updated)
                            .(submissions := old(submissionObservations)[v.executionId := list + [v]])
      ensures r == SubmissionReply(updated, v)
    {
      submissionObservations := submissionObservations[v.executionId := list + [v]];
      SetPreparation(updated);
      r := SubmissionReply(updated, v);
    }

    method FindPreparation(executionId: Id, actorSubject: Id) returns (r: Option<Preparation>)
      requires Valid(Contents())
      ensures r == DevnetStore.FindPreparation(Contents(), executionId, actorSubject)
    {
      var active := FindActive(executionId);
      r := if active.Some? && active.value.input.actorSubject == actorSubject then active else None;
    }

    method FindCommitment(executionId: Id, actorSubject: Id) returns (r: Option<Commitment>)
      requires Valid(Contents())
      ensures r == DevnetStore.FindCommitment(Contents(), executionId, actorSubject)
    {
      var active := FindActive(executionId);
      r := if active.Some? && active.value.input.actorSubject == actorSubject && executionId in commitments
           then Some(commitments[executionId]) else None;
    }

    method ListReconciliationObservations(executionId: Id, actorSubject: Id) returns (r: seq<Reconciliation>)
      requires Valid(Contents())
      ensures r == ListReconciliations(Contents(), executionId, actorSubject)
    {
      var active := FindActive(executionId);
      if active.None? || active.value.input.actorSubject != actorSubject { return []; }
      r := if executionId in observations then observations[executionId] else [];
    }
  }
}
