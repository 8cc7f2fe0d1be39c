/**
 What a call comes to when nothing interrupts it: from any reachable state, with any other calls suspended at any
 point, a prepare, refresh, submit or reconcile call that is resumed until it ends does its work exactly once.
 */
module DevnetProgress {
  import opened Wrappers
  import opened DevnetLifecycle
  import opened DevnetStore
  import opened DevnetStoreInvariant
  import opened DevnetObservation
  import opened DevnetAnswers
  import opened DevnetProtocol
  import opened DevnetSafety
  import opened DevnetOutcomes

  function Next(env: Environment, sys: System, pid: nat, e: Event): System { Take(env, sys, Resume(pid, e)) }

  // ---- submit ----------------------------------------------------------------------------------------

  function Bytes(env: Environment, input: PreparationInput): string
    requires ReadsBack(env, input)
  {
    env.decrypt(input.envelope, Context(input.executionId, input.preparationId, input.envelope.keyVersion)).value
  }

  /** What all evidence needs to be recorded: the configured provider, and a signature without spaces around it. */
  predicate Attributable(env: Environment, input: PreparationInput) {
    && Word(env.submissionProviderId, 128) && ProviderName(input.artifact.signature)
    && input.artifact.submissionProviderId == env.submissionProviderId
  }

  ghost predicate Sound(a: TransportAnswer) {
    match a
    case TransportThrew => false
    case TransportAccepted(_) => true
    case TransportSettled(_, slot, status) => Numeral(slot, 0) && IsStatusToken(status)
  }

  /** The process has just been granted the execution, which has no submission on record. */
  ghost predicate Owning(env: Environment, sys: System, pid: nat, g: Grant) {
    && Valid(sys.store) && pid in sys.processes && Holds(sys.processes[pid]) && sys.processes[pid].grant == g
    && g.commitment.executionId in sys.store.commitments
    && sys.store.commitments[g.commitment.executionId] == g.commitment
    && SubmissionLog(sys.store, g.commitment.executionId) == []
    && NamesCommitted(sys.store, g.preparationId, g.commitment.executionId, g.actorSubject)
    && sys.store.preparations[g.preparationId].state.SubmissionCommitted?
    && Attributable(env, sys.store.preparations[g.preparationId].input)
  }

  lemma FixedCodesAreErrorTokens()
    ensures IsErrorToken("SUBMISSION_RESPONSE_UNAVAILABLE") && IsErrorToken("PERSISTED_ARTIFACT_INVALID")
  {
  }

  lemma LostIsRecordable(v: SubmissionEvidence)
    requires (IsLost(v) || IsInvalid(v)) && Word(v.providerId, 128) && ProviderName(v.signature)
    ensures Recordable(v)
  {
    FixedCodesAreErrorTokens();
  }

  lemma AnswerIsRecordable(a: TransportAnswer, v: SubmissionEvidence)
    requires IsAnswer(a, v) && Word(v.providerId, 128) && ProviderName(v.signature)
    ensures Recordable(v) <==> Sound(a)
  {
  }

  lemma RecordsFirst(env: Environment, sys: System, pid: nat, g: Grant, v: SubmissionEvidence)
    requires Owning(env, sys, pid, g) && Names(env, g, v)
    ensures var (next, reply) := RecordSubmission(sys.store, v, g.actorSubject);
            if Recordable(v) then reply.Ok? && SubmissionLog(next, g.commitment.executionId) == [v]
            else reply.Err? && next == sys.store
  {
    assert Matches(sys.store.preparations, sys.store.commitments, g.commitment.executionId);
    SubmissionIsRecordedIff(sys.store, v, g.actorSubject);
  }

  /** The last record of a submission: it is stored, and the call has ended. */
  lemma LastIsRecorded(env: Environment, sys: System, pid: nat, g: Grant, v: SubmissionEvidence, e: Event)
    requires Owning(env, sys, pid, g) && sys.processes[pid] == RecordingLast(g, v) && Names(env, g, v)
    requires IsLost(v) || IsInvalid(v)
    ensures var next := Next(env, sys, pid, e);
            next.processes == sys.processes - {pid} && next.contacts == sys.contacts
            && SubmissionLog(next.store, g.commitment.executionId) == [v]
  {
    RecordsFirst(env, sys, pid, g, v);
    assert Matches(sys.store.preparations, sys.store.commitments, g.commitment.executionId);
    LostIsRecordable(v);
  }

  /** A sound answer is stored; one the store refuses leaves the call to record that the outcome is unknown. */
  lemma AnswerIsRecorded(env: Environment, sys: System, pid: nat, g: Grant, v: SubmissionEvidence,
                         a: TransportAnswer, e: Event)
    requires Owning(env, sys, pid, g) && sys.processes[pid] == RecordingOutcome(g, v) && Names(env, g, v)
    requires IsAnswer(a, v)
    ensures var next := Next(env, sys, pid, e);
            && next.contacts == sys.contacts
            && if Sound(a) then next.processes == sys.processes - {pid}
                                && SubmissionLog(next.store, g.commitment.executionId) == [v]
               else exists w :: IsLost(w) && Names(env, g, w) && next == Move(sys, pid, RecordingLast(g, w))
  {
    RecordsFirst(env, sys, pid, g, v);
    assert Matches(sys.store.preparations, sys.store.commitments, g.commitment.executionId);
    AnswerIsRecordable(a, v);
    var w := UnknownEvidence(env, g, e);
    assert IsLost(w) && Names(env, g, w);
  }

  /** What the four steps from the send on must come to. */
  ghost predicate Delivers(env: Environment, sys: System, next: System, pid: nat, g: Grant, transaction: string,
                           send: Event, answer: Event)
  {
    var e := g.commitment.executionId;
    && next.processes == sys.processes - {pid}
    && next.contacts == (if send.reached then sys.contacts + [Contact(e, transaction)] else sys.contacts)
    && |SubmissionLog(next.store, e)| == 1
    && var v := SubmissionLog(next.store, e)[0];
       Names(env, g, v) && if send.reached && Sound(answer.answer) then IsAnswer(answer.answer, v) else IsLost(v)
  }

  lemma SendDelivers(env: Environment, sys: System, pid: nat, g: Grant, transaction: string, a: Event, b: Event,
                     c: Event, d: Event)
    requires Owning(env, sys, pid, g) && sys.processes[pid] == Sending(g, transaction)
    ensures Delivers(env, sys, Next(env, Next(env, Next(env, Next(env, sys, pid, a), pid, b), pid, c), pid, d), pid, g,
                     transaction, a, b)
  {
    var first := Next(env, sys, pid, a);
    if a.reached {
      assert Owning(env, first, pid, g) && first.processes == sys.processes[pid := Awaiting(g)];
      AwaitDelivers(env, first, pid, g, b, c, d);
    } else {
      LastIsRecorded(env, first, pid, g, UnknownEvidence(env, g, a), b);
    }
  }

  lemma AwaitDelivers(env: Environment, sys: System, pid: nat, g: Grant, b: Event, c: Event, d: Event)
    requires Owning(env, sys, pid, g) && sys.processes[pid] == Awaiting(g)
    ensures var next := Next(env, Next(env, Next(env, sys, pid, b), pid, c), pid, d);
            && next.processes == sys.processes - {pid} && next.contacts == sys.contacts
            && |SubmissionLog(next.store, g.commitment.executionId)| == 1
            && var v := SubmissionLog(next.store, g.commitment.executionId)[0];
               Names(env, g, v) && if Sound(b.answer) then IsAnswer(b.answer, v) else IsLost(v)
  {
    var first := Next(env, sys, pid, b);
    if b.answer.TransportThrew? {
      LastIsRecorded(env, first, pid, g, UnknownEvidence(env, g, b), c);
    } else {
      var v := AnswerEvidence(env, g, b);
      assert first == Move(sys, pid, RecordingOutcome(g, v)) && Owning(env, first, pid, g);
      AnswerDelivers(env, first, pid, g, v, b.answer, c, d);
      assert first.processes - {pid} == sys.processes - {pid};
    }
  }

  lemma AnswerDelivers(env: Environment, sys: System, pid: nat, g: Grant, v: SubmissionEvidence, a: TransportAnswer,
                       c: Event, d: Event)
    requires Owning(env, sys, pid, g) && sys.processes[pid] == RecordingOutcome(g, v) && Names(env, g, v)
    requires IsAnswer(a, v)
    ensures var next := Next(env, Next(env, sys, pid, c), pid, d);
            && next.processes == sys.processes - {pid} && next.contacts == sys.contacts
            && |SubmissionLog(next.store, g.commitment.executionId)| == 1
            && var w := SubmissionLog(next.store, g.commitment.executionId)[0];
               Names(env, g, w) && if Sound(a) then IsAnswer(a, w) else IsLost(w)
  {
    AnswerIsRecorded(env, sys, pid, g, v, a, c);
    if !Sound(a) {
      var next := Next(env, sys, pid, c);
      var w :| IsLost(w) && Names(env, g, w) && next == Move(sys, pid, RecordingLast(g, w));
      LastIsRecorded(env, next, pid, g, w, d);
      assert next.processes - {pid} == sys.processes - {pid};
    }
  }

  /** A submit call that finds the execution's never contacted preparation gets as far as its commitment. */
  lemma SubmitCommits(env: Environment, sys: System, pid: nat, r: SubmitRequest, k: Id, a: Event)
    requires Valid(sys.store) && pid !in sys.processes && env.submissionEnabled
    requires NeverContacted(sys.store, k, r.executionId, r.actorSubject)
    ensures Next(env, Take(env, sys, StartSubmit(pid, r)), pid, a)
            == Move(sys, pid, Committing(CommitRequest(r.executionId, r.actorSubject, k, r.commitmentId, a.now)))
  {
    ActiveIsTheLiveOne(sys.store, r.executionId);
    NeverContactedIff(sys.store, k, r.executionId, r.actorSubject);
    assert Take(env, sys, StartSubmit(pid, r)) == Move(sys, pid, SubmitFinding(r));
  }

  /** The commitment hands the call the execution. */
  lemma CommitOwns(env: Environment, sys: System, pid: nat, r: CommitRequest, p: Process)
    requires Valid(sys.store) && SubmissionLog(sys.store, r.executionId) == []
    requires NeverContacted(sys.store, r.preparationId, r.executionId, r.actorSubject)
    requires Attributable(env, sys.store.preparations[r.preparationId].input)
    requires Holds(p) && CommitSubmission(sys.store, r).1.Ok?
    requires p.grant == Grant(CommitSubmission(sys.store, r).1.value.commitment, r.preparationId, r.actorSubject)
    ensures Owning(env, Move(sys.(store := CommitSubmission(sys.store, r).0), pid, p), pid, p.grant)
  {
    CommitGrantsIff(sys.store, r);
    CommitValid(sys.store, r);
    assert SubmissionLog(CommitSubmission(sys.store, r).0, r.executionId) == SubmissionLog(sys.store, r.executionId);
  }

  lemma CommitHandsOver(env: Environment, sys: System, pid: nat, r: CommitRequest, e: Event)
    requires Valid(sys.store) && pid in sys.processes && sys.processes[pid] == Committing(r)
    requires NeverContacted(sys.store, r.preparationId, r.executionId, r.actorSubject)
    ensures var next := Next(env, sys, pid, e);
            var input := sys.store.preparations[r.preparationId].input;
            && next.store == CommitSubmission(sys.store, r).0 && next.contacts == sys.contacts
            && CommitSubmission(sys.store, r).1.Ok?
            && var g := Grant(CommitSubmission(sys.store, r).1.value.commitment, r.preparationId, r.actorSubject);
               if !ReadsBack(env, input) then
                 exists v :: IsInvalid(v) && Names(env, g, v) && next == Move(next, pid, RecordingLast(g, v))
                             && next.processes == sys.processes[pid := RecordingLast(g, v)]
               else if e.authorized then next.processes == sys.processes[pid := Sending(g, Bytes(env, input))]
               else next.processes == sys.processes - {pid}
  {
    CommitGrantsIff(sys.store, r);
    var g := Grant(CommitSubmission(sys.store, r).1.value.commitment, r.preparationId, r.actorSubject);
    var v := InvalidEvidence(env, g, e);
    assert IsInvalid(v) && Names(env, g, v);
  }

  /** Six awaits after its start a submit call has ended, however its events turn out. */
  function SubmitAll(env: Environment, sys: System, pid: nat, r: SubmitRequest, events: seq<Event>): System
    requires |events| == 6
  {
    Finish(env, Next(env, Take(env, sys, StartSubmit(pid, r)), pid, events[0]), pid, events)
  }

  /** From the commitment on. */
  function Finish(env: Environment, sys: System, pid: nat, events: seq<Event>): System
    requires |events| == 6
  {
    var granted := Next(env, sys, pid, events[1]);
    Next(env, Next(env, Next(env, Next(env, granted, pid, events[2]), pid, events[3]), pid, events[4]), pid, events[5])
  }

  /** What an uninterrupted submit call comes to: its contacts and the execution's whole submission log. */
  ghost predicate SubmitsOnce(env: Environment, sys: System, next: System, r: SubmitRequest, input: PreparationInput,
                              events: seq<Event>)
    requires |events| == 6
  {
    var log := SubmissionLog(next.store, r.executionId);
    && next.processes == sys.processes
    && next.contacts == (if ReadsBack(env, input) && events[1].authorized && events[2].reached
                         then sys.contacts + [Contact(r.executionId, Bytes(env, input))] else sys.contacts)
    && if !ReadsBack(env, input) then |log| == 1 && IsInvalid(log[0])
       else if !events[1].authorized then log == []
       else |log| == 1 && if events[2].reached && Sound(events[3].answer) then IsAnswer(events[3].answer, log[0])
                          else IsLost(log[0])
  }

  /**
   From every reachable state an uninterrupted submit call of the owner sends the prepared bytes once and records what
   became of them once: the provider's answer, or that none came; nothing when it is not authorised after all, and
   that nothing was sent when the bytes do not read back.
   */
  lemma UninterruptedSubmit(env: Environment, steps: seq<Step>, pid: nat, r: SubmitRequest, k: Id, events: seq<Event>)
    requires |events| == 6 && pid !in Run(env, steps).processes && env.submissionEnabled
    requires NeverContacted(Run(env, steps).store, k, r.executionId, r.actorSubject)
    requires Attributable(env, Run(env, steps).store.preparations[k].input)
    ensures SubmitsOnce(env, Run(env, steps), SubmitAll(env, Run(env, steps), pid, r, events), r,
                        Run(env, steps).store.preparations[k].input, events)
  {
    RunIsSafe(env, steps);
    NothingBeforeCommitment(env, Run(env, steps), r.executionId);
    SubmitsFrom(env, Run(env, steps), pid, r, k, events);
  }

  lemma SubmitsFrom(env: Environment, sys: System, pid: nat, r: SubmitRequest, k: Id, events: seq<Event>)
    requires |events| == 6 && pid !in sys.processes && env.submissionEnabled && Valid(sys.store)
    requires SubmissionLog(sys.store, r.executionId) == []
    requires NeverContacted(sys.store, k, r.executionId, r.actorSubject)
    requires Attributable(env, sys.store.preparations[k].input)
    ensures SubmitsOnce(env, sys, SubmitAll(env, sys, pid, r, events), r, sys.store.preparations[k].input, events)
  {
    var request := CommitRequest(r.executionId, r.actorSubject, k, r.commitmentId, events[0].now);
    var committing := Move(sys, pid, Committing(request));
    SubmitCommits(env, sys, pid, r, k, events[0]);
    CommittedSubmits(env, committing, pid, request, events);
    assert End(committing, pid) == sys;
  }

  lemma CommittedSubmits(env: Environment, sys: System, pid: nat, r: CommitRequest, events: seq<Event>)
    requires Valid(sys.store) && SubmissionLog(sys.store, r.executionId) == [] && |events| == 6
    requires pid in sys.processes && sys.processes[pid] == Committing(r)
    requires NeverContacted(sys.store, r.preparationId, r.executionId, r.actorSubject)
    requires Attributable(env, sys.store.preparations[r.preparationId].input)
    ensures SubmitsOnce(env, End(sys, pid), Finish(env, sys, pid, events),
                        SubmitRequest(r.executionId, r.actorSubject, r.commitmentId),
                        sys.store.preparations[r.preparationId].input, events)
  {
    var input, granted := sys.store.preparations[r.preparationId].input, Next(env, sys, pid, events[1]);
    CommitHandsOver(env, sys, pid, r, events[1]);
    CommitGrantsIff(sys.store, r);
    var g := Grant(CommitSubmission(sys.store, r).1.value.commitment, r.preparationId, r.actorSubject);
    if !ReadsBack(env, input) {
      InvalidIsRecorded(env, sys, pid, r, g, events);
    } else if events[1].authorized {
      var p := Sending(g, Bytes(env, input));
      CommitOwns(env, sys, pid, r, p);
      assert granted == Move(sys.(store := CommitSubmission(sys.store, r).0), pid, p);
      SendDelivers(env, granted, pid, g, Bytes(env, input), events[2], events[3], events[4], events[5]);
      assert granted.processes - {pid} == sys.processes - {pid};
    }
  }

  lemma InvalidIsRecorded(env: Environment, sys: System, pid: nat, r: CommitRequest, g: Grant, events: seq<Event>)
    requires Valid(sys.store) && SubmissionLog(sys.store, r.executionId) == [] && |events| == 6
    requires pid in sys.processes && sys.processes[pid] == Committing(r)
    requires NeverContacted(sys.store, r.preparationId, r.executionId, r.actorSubject)
    requires Attributable(env, sys.store.preparations[r.preparationId].input)
    requires !ReadsBack(env, sys.store.preparations[r.preparationId].input) && CommitSubmission(sys.store, r).1.Ok?
    requires g == Grant(CommitSubmission(sys.store, r).1.value.commitment, r.preparationId, r.actorSubject)
    requires g.commitment.executionId == r.executionId
    ensures var next := Finish(env, sys, pid, events);
            && next.processes == sys.processes - {pid} && next.contacts == sys.contacts
            && |SubmissionLog(next.store, r.executionId)| == 1 && IsInvalid(SubmissionLog(next.store, r.executionId)[0])
  {
    var granted := Next(env, sys, pid, events[1]);
    CommitHandsOver(env, sys, pid, r, events[1]);
    var v :| IsInvalid(v) && Names(env, g, v) && granted == Move(granted, pid, RecordingLast(g, v))
             && granted.processes == sys.processes[pid := RecordingLast(g, v)];
    CommitOwns(env, sys, pid, r, RecordingLast(g, v));
    assert granted == Move(sys.(store := CommitSubmission(sys.store, r).0), pid, RecordingLast(g, v));
    LastIsRecorded(env, granted, pid, g, v, events[2]);
    assert granted.processes - {pid} == sys.processes - {pid};
  }
}
