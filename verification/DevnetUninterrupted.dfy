/**
 Prepare, refresh and reconcile calls that nothing interrupts, from any reachable state: what they store, and that
 they store it exactly when the stored records allow it.
 */
module DevnetUninterrupted {
  import opened Wrappers
  import opened DevnetLifecycle
  import opened DevnetStore
  import opened DevnetStoreInvariant
  import opened DevnetObservation
  import opened DevnetAnswers
  import opened DevnetProtocol
  import opened DevnetSafety
  import P = DevnetPreparations
  import R = DevnetReports
  import opened DevnetProgress

  // ---- prepare ---------------------------------------------------------------------------------------

  /** The input is the signed artifact under the identity, encrypted for it. */
  predicate Holding(env: Environment, i: Identity, signed: Signed, now: Timestamp, input: PreparationInput) {
    && P.Names(i, input) && input.artifact == signed.artifact && input.preparedAt == now
    && input.envelope == env.encrypt(signed.transaction, Context(i.executionId, i.preparationId, env.keyVersion))
  }

  ghost predicate Unprepared(s: Store, e: Id) {
    forall k :: k in s.preparations ==> s.preparations[k].input.executionId != e
  }

  predicate Starts(p: Preparation, input: PreparationInput) {
    p.input == input && p.state.PreparedNotContacted? && p.abandonedAt.None? && p.committedAt.None?
  }

  /** The store gained exactly one preparation, and kept the others as they were. */
  ghost predicate Gains(s: Store, t: Store, input: PreparationInput) {
    && t.preparations.Keys == s.preparations.Keys + {input.preparationId}
    && Starts(t.preparations[input.preparationId], input)
    && forall k :: k in s.preparations && k != input.preparationId ==> t.preparations[k] == s.preparations[k]
  }

  ghost predicate MayPersist(s: Store, input: PreparationInput) {
    Storable(input) && Unused(s, input) && Unprepared(s, input.executionId)
  }

  lemma PersistGains(s: Store, input: PreparationInput)
    requires Valid(s)
    ensures var t := PersistPreparation(s, input).0; if MayPersist(s, input) then Gains(s, t, input) else t == s
  {
    PersistAcceptsIff(s, input);
  }

  /**
   An uninterrupted prepare call with a matching command stores its signed artifact, never contacted, iff that is well
   formed and unused and the execution has no preparation; otherwise nothing changes.
   */
  lemma UninterruptedPrepare(env: Environment, steps: seq<Step>, pid: nat, i: Identity, c: Command, a: Event, b: Event)
    requires pid !in Run(env, steps).processes && a.signed.Some?
    ensures var sys := Run(env, steps);
            var next := Next(env, Next(env, Take(env, sys, StartPrepare(pid, i, c)), pid, a), pid, b);
            && next.processes == sys.processes && next.contacts == sys.contacts
            && exists input :: Holding(env, i, a.signed.value, a.now, input)
                 && if P.Fits(i, c) && MayPersist(sys.store, input) then Gains(sys.store, next.store, input)
                    else next.store == sys.store
  {
    var sys, input := Run(env, steps), Persistence(env, i, a.signed.value, a.now);
    RunIsSafe(env, steps);
    PersistGains(sys.store, input);
    assert Holding(env, i, a.signed.value, a.now, input);
    if P.Fits(i, c) { PrepareRuns(env, sys, pid, i, c, a, b, input); }
    else { assert Take(env, sys, StartPrepare(pid, i, c)) == sys; }
  }

  lemma PrepareRuns(env: Environment, sys: System, pid: nat, i: Identity, c: Command, a: Event, b: Event,
                    input: PreparationInput)
    requires pid !in sys.processes && P.Fits(i, c) && a.signed.Some?
    requires input == Persistence(env, i, a.signed.value, a.now)
    ensures Next(env, Next(env, Take(env, sys, StartPrepare(pid, i, c)), pid, a), pid, b)
            == sys.(store := PersistPreparation(sys.store, input).0)
  {
    var persisting := Move(sys, pid, Persisting(input));
    assert Next(env, Take(env, sys, StartPrepare(pid, i, c)), pid, a) == persisting;
    assert persisting.processes - {pid} == sys.processes;
  }

  // ---- refresh ---------------------------------------------------------------------------------------

  /** The identity a refresh of the preparation asks for: the same execution and owner, the next generation. */
  predicate Follows(prior: PreparationInput, nextId: Id, i: Identity) {
    && i.preparationId == nextId && i.executionId == prior.executionId && i.paymentIntentId == prior.paymentIntentId
    && i.actorSubject == prior.actorSubject && i.generation == prior.generation + 1
  }

  ghost predicate MayReplace(s: Store, input: PreparationInput) { Storable(input) && Unused(s, input) }

  /** Its prior is abandoned at that time, and otherwise only the one preparation was gained. */
  ghost predicate Replaces(s: Store, t: Store, k: Id, at: Timestamp, input: PreparationInput) {
    && k in s.preparations && k in t.preparations
    && t.preparations[k] == s.preparations[k].(state := AbandonedPreContact, abandonedAt := Some(at))
    && Gains(s.(preparations := s.preparations[k := t.preparations[k]]), t, input)
  }

  lemma ReplaceReplaces(s: Store, k: Id, input: PreparationInput, at: Timestamp)
    requires Valid(s) && NeverContacted(s, k, input.executionId, input.actorSubject)
    requires input.generation == s.preparations[k].input.generation + 1
    ensures var t := ReplaceExpiredPreparation(s, k, input, at).0;
            if MayReplace(s, input) then Replaces(s, t, k, at, input) else t == s
  {
    ReplaceAcceptsIff(s, k, input, at);
  }

  /**
   An uninterrupted refresh call of the owner gives up its never contacted preparation for the next generation iff the
   blockhash has expired, the command matches and the new artifact may be stored; otherwise nothing changes.
   */
  lemma UninterruptedRefresh(env: Environment, steps: seq<Step>, pid: nat, k: Id, e: Id, actor: Id, i: Identity,
                             c: Command, a: Event, b: Event, d: Event, f: Event)
    requires pid !in Run(env, steps).processes && NeverContacted(Run(env, steps).store, k, e, actor)
    requires Follows(Run(env, steps).store.preparations[k].input, i.preparationId, i) && d.signed.Some?
    ensures var sys := Run(env, steps);
            var found := Next(env, Take(env, sys, StartRefresh(pid, e, actor, i.preparationId, c)), pid, a);
            var next := Next(env, Next(env, Next(env, found, pid, b), pid, d), pid, f);
            && next.processes == sys.processes && next.contacts == sys.contacts
            && exists input :: Holding(env, i, d.signed.value, d.now, input)
                 && if b.expired && P.Fits(i, c) && MayReplace(sys.store, input)
                    then Replaces(sys.store, next.store, k, d.now, input) else next.store == sys.store
  {
    var sys, input := Run(env, steps), Persistence(env, i, d.signed.value, d.now);
    RunIsSafe(env, steps);
    RefreshFinds(env, sys, pid, k, e, actor, i.preparationId, c, a);
    ReplaceReplaces(sys.store, k, input, d.now);
    assert Holding(env, i, d.signed.value, d.now, input);
    RefreshRuns(env, sys, pid, k, i, c, b, d, f, input);
  }

  lemma RefreshFinds(env: Environment, sys: System, pid: nat, k: Id, e: Id, actor: Id, nextId: Id, c: Command, a: Event)
    requires Valid(sys.store) && pid !in sys.processes && NeverContacted(sys.store, k, e, actor)
    ensures Next(env, Take(env, sys, StartRefresh(pid, e, actor, nextId, c)), pid, a)
            == Move(sys, pid, RefreshReading(sys.store.preparations[k], nextId, c))
    ensures sys.store.preparations[k].input.preparationId == k && sys.store.preparations[k].input.executionId == e
  {
    ActiveIsTheLiveOne(sys.store, e);
    NeverContactedIff(sys.store, k, e, actor);
    assert Take(env, sys, StartRefresh(pid, e, actor, nextId, c))
           == Move(sys, pid, RefreshFinding(e, actor, nextId, c));
  }

  lemma RefreshRuns(env: Environment, sys: System, pid: nat, k: Id, i: Identity, c: Command, b: Event, d: Event,
                    f: Event, input: PreparationInput)
    requires pid !in sys.processes && k in sys.store.preparations && d.signed.Some?
    requires sys.store.preparations[k].input.preparationId == k
    requires Follows(sys.store.preparations[k].input, i.preparationId, i)
    requires input == Persistence(env, i, d.signed.value, d.now)
    ensures var found := Move(sys, pid, RefreshReading(sys.store.preparations[k], i.preparationId, c));
            Next(env, Next(env, Next(env, found, pid, b), pid, d), pid, f)
            == if b.expired && P.Fits(i, c)
               then sys.(store := ReplaceExpiredPreparation(sys.store, k, input, d.now).0) else sys
  {
    var found := Move(sys, pid, RefreshReading(sys.store.preparations[k], i.preparationId, c));
    if b.expired && P.Fits(i, c) {
      var preparing := Move(sys, pid, RefreshPreparing(k, i));
      assert Next(env, found, pid, b) == preparing;
      var replacing := Move(sys, pid, Replacing(k, input, d.now));
      assert Next(env, preparing, pid, d) == replacing;
      assert replacing.processes - {pid} == sys.processes;
    } else {
      assert Next(env, found, pid, b) == sys;
    }
  }

  /** Without a never contacted preparation of the caller's own, a submit or refresh call stops at once. */
  lemma StrangerStops(env: Environment, steps: seq<Step>, pid: nat, r: SubmitRequest, nextId: Id, c: Command, a: Event)
    requires pid !in Run(env, steps).processes
    requires forall k :: !NeverContacted(Run(env, steps).store, k, r.executionId, r.actorSubject)
    ensures var sys := Run(env, steps);
            Next(env, Take(env, sys, StartSubmit(pid, r)), pid, a) == sys
            && Next(env, Take(env, sys, StartRefresh(pid, r.executionId, r.actorSubject, nextId, c)), pid, a) == sys
  {
    var sys := Run(env, steps);
    RunIsSafe(env, steps);
    NothingToContact(sys.store, r.executionId, r.actorSubject);
    assert End(Move(sys, pid, SubmitFinding(r)), pid) == sys;
    assert End(Move(sys, pid, RefreshFinding(r.executionId, r.actorSubject, nextId, c)), pid) == sys;
  }

  lemma NothingToContact(s: Store, e: Id, actor: Id)
    requires Valid(s) && forall k :: !NeverContacted(s, k, e, actor)
    ensures var p := FindPreparation(s, e, actor); p.None? || !p.value.state.PreparedNotContacted?
  {
    var p := FindPreparation(s, e, actor);
    if p.Some? {
      FoundIff(s, e, actor, p.value);
      NeverContactedIff(s, p.value.input.preparationId, e, actor);
    }
  }

  /** With submission switched off nothing is committed or sent. */
  lemma DisabledSubmitStops(env: Environment, sys: System, pid: nat, r: SubmitRequest, a: Event)
    requires pid !in sys.processes && !env.submissionEnabled
    ensures Next(env, Take(env, sys, StartSubmit(pid, r)), pid, a) == sys
  {
    assert End(Move(sys, pid, SubmitFinding(r)), pid) == sys;
  }

  // ---- reconcile -------------------------------------------------------------------------------------

  /** The stored providers are still the configured reconciliation provider and another one. */
  predicate Separated(env: Environment, input: PreparationInput) {
    && input.artifact.reconciliationProviderId == env.reconciliationProviderId
    && input.artifact.submissionProviderId != env.reconciliationProviderId
  }

  /** What the record of a poll has to be: about the committed signature, and what the provider answered. */
  predicate Records(env: Environment, s: Store, k: Id, e: Id, actor: Id, poll: Event, v: ReconciliationEvidence)
    requires e in s.commitments
  {
    && v.executionId == e && v.actorSubject == actor && v.preparationId == k && v.observationId == poll.observationId
    && v.signature == s.commitments[e].signature && v.providerId == env.reconciliationProviderId
    && R.Attests(poll.polled, Subject(e, actor, k, s.commitments[e].signature, env.reconciliationProviderId), poll.now,
                 v)
  }

  /** The record is something new, well formed and with an id of its own. */
  ghost predicate MayObserve(s: Store, v: ReconciliationEvidence, fence: Fence)
    requires v.preparationId in s.preparations
  {
    Observable(v, fence) && !Stands(s, v) && !HasReconciliationId(ReconciliationLog(s, v.executionId), v.observationId)
  }

  /**
   An uninterrupted reconcile call of the owner, for a committed execution that has not ended, polls about the committed
   signature once and appends what the provider answered iff that is new and well formed and the lease was kept.
   */
  lemma UninterruptedReconcile(env: Environment, steps: seq<Step>, pid: nat, k: Id, e: Id, actor: Id, a: Event,
                               b: Event, poll: Event, list: Event, record: Event)
    requires pid !in Run(env, steps).processes && env.reconciliationEnabled
    requires var s := Run(env, steps).store;
             NamesCommitted(s, k, e, actor) && Separated(env, s.preparations[k].input)
             && !IsTerminal(s.preparations[k].state)
    ensures var sys := Run(env, steps);
            var polling := Next(env, Next(env, Take(env, sys, StartReconcile(pid, e, actor)), pid, a), pid, b);
            var next := Next(env, Next(env, Next(env, polling, pid, poll), pid, list), pid, record);
            && next.processes == sys.processes && next.contacts == sys.contacts
            && exists v :: Records(env, sys.store, k, e, actor, poll, v) && v.preparationId in sys.store.preparations
                 && if poll.leaseHeld && list.leaseHeld && MayObserve(sys.store, v, poll.fence)
                    then Appends(sys.store, v, next.store) else next.store == sys.store
  {
    var sys := Run(env, steps);
    RunIsSafe(env, steps);
    ReconcilePolls(env, sys, pid, k, e, actor, a, b);
    var subject := Subject(e, actor, k, sys.store.commitments[e].signature, env.reconciliationProviderId);
    var v := EvidenceFor(poll.polled, subject, poll.observationId, poll.now);
    R.PollAttests(poll.polled, subject, poll.observationId, poll.now);
    assert Records(env, sys.store, k, e, actor, poll, v);
    ObservationIsRecordedIff(sys.store, v, poll.fence);
    if poll.leaseHeld && list.leaseHeld { PollRecords(env, sys, pid, subject, poll, list, record); }
    else { LostLeaseStops(env, sys, pid, subject, poll, list, record); }
  }

  lemma LostLeaseStops(env: Environment, sys: System, pid: nat, subject: Subject, poll: Event, list: Event,
                       record: Event)
    requires pid !in sys.processes && !(poll.leaseHeld && list.leaseHeld)
    ensures var polling := Move(sys, pid, ReconcilePolling(subject));
            Next(env, Next(env, Next(env, polling, pid, poll), pid, list), pid, record) == sys
  {
    var polling := Move(sys, pid, ReconcilePolling(subject));
    assert End(polling, pid) == sys;
    if poll.leaseHeld {
      var listing := Next(env, polling, pid, poll);
      assert pid in listing.processes && End(listing, pid) == sys;
    }
  }

  /** Without a committed preparation of the caller's own under separate providers, a reconcile call polls nothing. */
  lemma StrangerPollsNothing(env: Environment, steps: seq<Step>, pid: nat, e: Id, actor: Id, a: Event, b: Event)
    requires pid !in Run(env, steps).processes
    requires var s := Run(env, steps).store;
             env.reconciliationEnabled ==>
               forall k :: !(NamesCommitted(s, k, e, actor) && Separated(env, s.preparations[k].input))
    ensures var sys := Run(env, steps);
            Next(env, Next(env, Take(env, sys, StartReconcile(pid, e, actor)), pid, a), pid, b) == sys
  {
    RunIsSafe(env, steps);
    if env.reconciliationEnabled { FindingStops(env, Run(env, steps), pid, e, actor, a, b); }
  }

  lemma FindingStops(env: Environment, sys: System, pid: nat, e: Id, actor: Id, a: Event, b: Event)
    requires Valid(sys.store) && pid !in sys.processes
    requires forall k :: !(NamesCommitted(sys.store, k, e, actor) && Separated(env, sys.store.preparations[k].input))
    ensures Next(env, Next(env, Move(sys, pid, ReconcileFinding(e, actor)), pid, a), pid, b) == sys
  {
    var finding, p := Move(sys, pid, ReconcileFinding(e, actor)), FindPreparation(sys.store, e, actor);
    assert End(finding, pid) == sys;
    if p.None? {
      assert Next(env, finding, pid, a) == sys;
    } else {
      FoundIff(sys.store, e, actor, p.value);
      assert Next(env, finding, pid, a) == Move(sys, pid, ReconcileCommitment(p.value));
      UncommittedStops(env, sys, pid, p.value, b);
    }
  }

  lemma UncommittedStops(env: Environment, sys: System, pid: nat, p: Preparation, b: Event)
    requires Valid(sys.store) && pid !in sys.processes
    requires FindPreparation(sys.store, p.input.executionId, p.input.actorSubject) == Some(p)
    requires p.input.preparationId in sys.store.preparations
             && sys.store.preparations[p.input.preparationId] == p
    requires !(NamesCommitted(sys.store, p.input.preparationId, p.input.executionId, p.input.actorSubject)
               && Separated(env, p.input))
    ensures Next(env, Move(sys, pid, ReconcileCommitment(p)), pid, b) == sys
  {
    assert End(Move(sys, pid, ReconcileCommitment(p)), pid) == sys;
    if p.input.executionId in sys.store.commitments {
      assert Matches(sys.store.preparations, sys.store.commitments, p.input.executionId);
    }
  }

  lemma ReconcilePolls(env: Environment, sys: System, pid: nat, k: Id, e: Id, actor: Id, a: Event, b: Event)
    requires Valid(sys.store) && pid !in sys.processes && env.reconciliationEnabled
    requires NamesCommitted(sys.store, k, e, actor) && Separated(env, sys.store.preparations[k].input)
    requires !IsTerminal(sys.store.preparations[k].state)
    ensures Next(env, Next(env, Take(env, sys, StartReconcile(pid, e, actor)), pid, a), pid, b)
            == Move(sys, pid, ReconcilePolling(Subject(e, actor, k, sys.store.commitments[e].signature,
                                                       env.reconciliationProviderId)))
  {
    assert Matches(sys.store.preparations, sys.store.commitments, e);
    ActiveIsTheLiveOne(sys.store, e);
    assert Take(env, sys, StartReconcile(pid, e, actor)) == Move(sys, pid, ReconcileFinding(e, actor));
    assert Next(env, Take(env, sys, StartReconcile(pid, e, actor)), pid, a)
           == Move(sys, pid, ReconcileCommitment(sys.store.preparations[k]));
  }

  lemma PollRecords(env: Environment, sys: System, pid: nat, subject: Subject, poll: Event, list: Event, record: Event)
    requires Valid(sys.store) && pid !in sys.processes && poll.leaseHeld && list.leaseHeld
    requires NamesCommitted(sys.store, subject.preparationId, subject.executionId, subject.actorSubject)
    ensures var v := EvidenceFor(poll.polled, subject, poll.observationId, poll.now);
            var next := Next(env, Next(env, Next(env, Move(sys, pid, ReconcilePolling(subject)), pid, poll), pid, list),
                             pid, record);
            next == if LastIs(sys.store, v) then sys
                    else sys.(store := RecordReconciliation(sys.store, v, poll.fence).0)
  {
    var v := EvidenceFor(poll.polled, subject, poll.observationId, poll.now);
    assert Next(env, Move(sys, pid, ReconcilePolling(subject)), pid, poll)
           == Move(sys, pid, ReconcileListing(v, poll.fence));
    ListRecords(env, sys, pid, v, poll.fence, list, record);
  }

  lemma ListRecords(env: Environment, sys: System, pid: nat, v: ReconciliationEvidence, fence: Fence, list: Event,
                    record: Event)
    requires Valid(sys.store) && pid !in sys.processes && list.leaseHeld
    requires NamesCommitted(sys.store, v.preparationId, v.executionId, v.actorSubject)
    ensures Next(env, Next(env, Move(sys, pid, ReconcileListing(v, fence)), pid, list), pid, record)
            == if LastIs(sys.store, v) then sys
               else sys.(store := RecordReconciliation(sys.store, v, fence).0)
  {
    var listing := Move(sys, pid, ReconcileListing(v, fence));
    OwnerSeesLog(sys.store, v);
    assert listing.processes - {pid} == sys.processes;
    if LastIs(sys.store, v) {
      assert Next(env, listing, pid, list) == sys;
    } else {
      assert Next(env, listing, pid, list) == Move(sys, pid, ReconcileRecording(v, fence));
      RecordingRecords(env, sys, pid, v, fence, record);
    }
  }

  lemma RecordingRecords(env: Environment, sys: System, pid: nat, v: ReconciliationEvidence, fence: Fence,
                         record: Event)
    requires pid !in sys.processes
    ensures Next(env, Move(sys, pid, ReconcileRecording(v, fence)), pid, record)
            == sys.(store := RecordReconciliation(sys.store, v, fence).0)
  {
    assert Move(sys, pid, ReconcileRecording(v, fence)).processes - {pid} == sys.processes;
  }

  lemma OwnerSeesLog(s: Store, v: ReconciliationEvidence)
    requires Valid(s) && NamesCommitted(s, v.preparationId, v.executionId, v.actorSubject)
    ensures ListReconciliations(s, v.executionId, v.actorSubject) == ReconciliationLog(s, v.executionId)
  {
    assert Matches(s.preparations, s.commitments, v.executionId);
    ActiveIsTheLiveOne(s, v.executionId);
  }

  predicate LastIs(s: Store, v: ReconciliationEvidence) {
    var log := ReconciliationLog(s, v.executionId);
    log != [] && SameReconciliation(log[|log| - 1].evidence, v)
  }
}
