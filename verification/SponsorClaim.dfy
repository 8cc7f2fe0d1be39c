/** The attempt fence and the pure claim decision, with no repository. */
module SponsorClaim {
  import opened Wrappers
  import opened SponsorTables

  datatype Fence = Fence(
    attempt: AttemptIdentity, messageDigest: Id, envelopeDigest: Id, state: AttemptState,
    finalizationId: Option<Id>)

  function FenceOf(a: Attempt): Fence {
    Fence(a.envelope.attempt, a.messageDigest, a.digest, a.state, a.finalizationId)
  }

  predicate TupleAllowed(t: Tuple) { t.user != t.sponsor.publicKey }

  function CommitFence(current: Fence, tuple: Tuple, id: Id): Option<Fence> {
    if !TupleAllowed(tuple) || !current.state.Open? || current.attempt != tuple.attempt
       || current.messageDigest != tuple.messageDigest || current.envelopeDigest != tuple.envelopeDigest
    then None
    else Some(current.(state := FinalizationCommitted, finalizationId := Some(id)))
  }

  predicate MayReplace(prior: Fence, next: AttemptIdentity, envelopeDigest: Id) {
    && prior.state.Cancelled? && next.intentId == prior.attempt.intentId
    && next.intentVersion >= prior.attempt.intentVersion && next.generation == prior.attempt.generation + 1
    && next.attemptId != prior.attempt.attemptId && next.fenceToken != prior.attempt.fenceToken
    && envelopeDigest != prior.envelopeDigest
  }

  datatype Disposition = Created | Replay | Converged

  datatype Decided = Decision(disposition: Disposition, operation: PureOperation, fence: Fence)

  /** What the decision reads of an operation; its signer result is only carried along. */
  datatype PureOperation = PureOperation(id: Id, tuple: Tuple, tupleDigest: Id)

  function Scope(t: Tuple): Key { Key(t.attempt.intentId, t.attempt.generation) }

  predicate Carries(lib: Library, o: PureOperation, hash: Id) {
    o.tupleDigest == hash && lib.tupleDigest(o.tuple) == hash
  }

  function Resolve(lib: Library, current: Fence, id: Id, tuple: Tuple, byId: Option<PureOperation>,
                   byGeneration: Option<PureOperation>): Result<Decided, Refusal>
  {
    var hash := lib.tupleDigest(tuple);
    if !TupleAllowed(tuple) then Err(InvalidTuple)
    else if byId.Some? && !(byId.value.id == id && Carries(lib, byId.value, hash)) then Err(TupleConflict)
    else if byGeneration.Some?
            && !(Scope(byGeneration.value.tuple) == Scope(tuple) && Carries(lib, byGeneration.value, hash)) then
      Err(TupleConflict)
    else if byId.Some? || byGeneration.Some? then
      var existing := if byId.Some? then byId.value else byGeneration.value;
      if Scope(existing.tuple) != Scope(tuple) || !Carries(lib, existing, hash)
         || (byId.Some? && byGeneration.Some? && byId.value.id != byGeneration.value.id) then
        Err(TupleConflict)
      else if !current.state.FinalizationCommitted? || current.finalizationId != Some(existing.id)
              || current.messageDigest != tuple.messageDigest || current.envelopeDigest != tuple.envelopeDigest
              || current.attempt != tuple.attempt then
        Err(FenceRefused)
      else Ok(Decision(if byId.Some? then Replay else Converged, existing, current))
    else
      match CommitFence(current, tuple, id)
      case None => Err(FenceRefused)
      case Some(fence) => Ok(Decision(Created, PureOperation(id, tuple, hash), fence))
  }
}
