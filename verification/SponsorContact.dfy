/**
 Recovery as interruptible processes: every `recover` call stops at each await, any number of them run at once
 beside every other call, and each may crash at any await.
 */
module SponsorContact {
  import opened Wrappers
  import opened SponsorTables
  import opened SponsorSteps
  import opened SponsorFences
  import opened SponsorLedger
  import opened SponsorBudgets
  import opened SponsorRuns
  import opened SponsorHistory

  datatype Recovery =
    | Committing(id: Id)
    | Calling(id: Id, contact: bool)
    | Waiting(id: Id)
    | Accepting(id: Id, response: SignerResponse)
    | RecordingUnknown(id: Id)
    | AfterFailure(id: Id, conflict: bool)
    | RecordingConflict(id: Id)

  /** `finalizes` lists the calls of the signer's finalize, in order. */
  datatype System = System(db: Db, processes: map<nat, Recovery>, finalizes: seq<Id>)

  /** What an awaited operation returned; no response stands for a signer that threw. */
  datatype Event = Event(authority: Authority, response: Option<SignerResponse>)

  datatype Step =
    | Other(call: Call)
    | Start(pid: nat, id: Id)
    | Crash(pid: nat)
    | Resume(pid: nat, event: Event)

  function Move(sys: System, pid: nat, p: Recovery): System { sys.(processes := sys.processes[pid := p]) }

  function End(sys: System, pid: nat): System { sys.(processes := sys.processes - {pid}) }

  predicate Finished(db: Db, id: Id) {
    id in db.operations.rows && var s := db.operations.rows[id].signerState;
    s.ResultAvailable? || s.SignerRefused? || s.ExpiredNeverContacted?
  }

  function Advance(lib: Library, sys: System, pid: nat, e: Event): System
    requires pid in sys.processes
  {
    match sys.processes[pid]
    case Committing(id) =>
      var (db, reply) := CommitContact(sys.db, id, e.authority);
      if reply.Err? || Finished(db, id) then End(sys.(db := db), pid)
      else Move(sys.(db := db), pid, Calling(id, reply.value))
    case Calling(id, contact) =>
      Move(sys, pid, Waiting(id)).(finalizes := if contact then sys.finalizes + [id] else sys.finalizes)
    case Waiting(id) =>
      Move(sys, pid, if e.response.Some? then Accepting(id, e.response.value) else RecordingUnknown(id))
    case Accepting(id, response) =>
      var (db, reply) := Accept(lib, sys.db, id, response);
      if reply.Ok? then End(sys.(db := db), pid)
      else Move(sys.(db := db), pid, AfterFailure(id, reply.error.SignerConflict?))
    case RecordingUnknown(id) => End(sys.(db := RecordUnknown(sys.db, id).0), pid)
    case AfterFailure(id, conflict) =>
      var (db, reply) := RecordUnknown(sys.db, id);
      if reply.Err? || !conflict then End(sys.(db := db), pid) else Move(sys.(db := db), pid, RecordingConflict(id))
    case RecordingConflict(id) => End(sys.(db := RecordIncident(sys.db, id)), pid)
  }

  function Take(lib: Library, sys: System, step: Step): System {
    match step
    case Other(call) => sys.(db := Apply(lib, sys.db, call))
    case Start(pid, id) => if pid in sys.processes then sys else Move(sys, pid, Committing(id))
    case Crash(pid) => End(sys, pid)
    case Resume(pid, e) => if pid in sys.processes then Advance(lib, sys, pid, e) else sys
  }

  function RunSystem(lib: Library, steps: seq<Step>): System {
    if steps == [] then System(EMPTY, map[], [])
    else Take(lib, RunSystem(lib, steps[..|steps| - 1]), steps[|steps| - 1])
  }

  // ---- the invariant -------------------------------------------------------------------------------------

  /** The process that was granted the one contact and has not used it yet. */
  ghost predicate Grants(sys: System, pid: nat, id: Id) {
    pid in sys.processes && sys.processes[pid] == Calling(id, true)
  }

  ghost predicate GrantOk(sys: System, pid: nat, id: Id) { Grants(sys, pid, id) ==> id in sys.db.evidence.contacts }

  ghost predicate GrantsApart(sys: System, p: nat, q: nat, id: Id) {
    Grants(sys, p, id) && Grants(sys, q, id) ==> p == q
  }

  ghost predicate CallOk(sys: System, i: nat) {
    i < |sys.finalizes| ==> sys.finalizes[i] in sys.db.evidence.contacts
  }

  ghost predicate CallsApart(sys: System, i: nat, j: nat) {
    i < |sys.finalizes| && j < |sys.finalizes| && i != j ==> sys.finalizes[i] != sys.finalizes[j]
  }

  ghost predicate NotYetCalled(sys: System, pid: nat, i: nat) {
    i < |sys.finalizes| ==> !Grants(sys, pid, sys.finalizes[i])
  }

  ghost predicate Safe(lib: Library, sys: System) {
    && Valid(lib, sys.db)
    && (forall p, id {:trigger GrantOk(sys, p, id)} :: GrantOk(sys, p, id))
    && (forall p, q, id {:trigger GrantsApart(sys, p, q, id)} :: GrantsApart(sys, p, q, id))
    && (forall i {:trigger CallOk(sys, i)} :: CallOk(sys, i))
    && (forall i, j {:trigger CallsApart(sys, i, j)} :: CallsApart(sys, i, j))
    && (forall p, i {:trigger NotYetCalled(sys, p, i)} :: NotYetCalled(sys, p, i))
  }

  /** A step that grants nothing new and calls nothing. */
  lemma QuietKeepsSafe(lib: Library, sys: System, next: System)
    requires Safe(lib, sys) && Valid(lib, next.db) && next.finalizes == sys.finalizes
    requires sys.db.evidence.contacts.Keys <= next.db.evidence.contacts.Keys
    requires forall p, id :: Grants(next, p, id) ==> Grants(sys, p, id)
    ensures Safe(lib, next)
  {
    forall p, id ensures GrantOk(next, p, id) { assert GrantOk(sys, p, id); }
    forall p, q, id ensures GrantsApart(next, p, q, id) { assert GrantsApart(sys, p, q, id); }
    forall i ensures CallOk(next, i) { assert CallOk(sys, i); }
    forall i, j ensures CallsApart(next, i, j) { assert CallsApart(sys, i, j); }
    forall p, i ensures NotYetCalled(next, p, i) { assert NotYetCalled(sys, p, i); }
  }

  lemma CallKeepsSafe(lib: Library, sys: System, c: Call, next: System)
    requires Safe(lib, sys) && next.db == Apply(lib, sys.db, c) && next.finalizes == sys.finalizes
    requires forall p, id :: Grants(next, p, id) ==> Grants(sys, p, id)
    ensures Safe(lib, next)
  {
    ApplyValid(lib, sys.db, c);
    ApplyExtends(lib, sys.db, c);
    QuietKeepsSafe(lib, sys, next);
  }

  /** A granted contact was in no ledger before, so nobody holds it and it was never called. */
  lemma GrantKeepsSafe(lib: Library, sys: System, pid: nat, id: Id, a: Authority)
    requires Safe(lib, sys) && CommitContact(sys.db, id, a).1 == Ok(true)
    ensures Safe(lib, Move(sys.(db := CommitContact(sys.db, id, a).0), pid, Calling(id, true)))
  {
    var next := Move(sys.(db := CommitContact(sys.db, id, a).0), pid, Calling(id, true));
    ApplyValid(lib, sys.db, DoCommitContact(id, a));
    assert LedgerOk(sys.db.operations, sys.db.evidence, id);
    assert id !in sys.db.evidence.contacts && next.db.evidence.contacts.Keys == sys.db.evidence.contacts.Keys + {id};
    forall p, d ensures GrantOk(next, p, d) { assert GrantOk(sys, p, d); }
    forall p, q, d ensures GrantsApart(next, p, q, d) {
      assert GrantsApart(sys, p, q, d) && GrantOk(sys, p, d) && GrantOk(sys, q, d);
    }
    forall i ensures CallOk(next, i) { assert CallOk(sys, i); }
    forall i, j ensures CallsApart(next, i, j) { assert CallsApart(sys, i, j); }
    forall p, i ensures NotYetCalled(next, p, i) { assert NotYetCalled(sys, p, i) && CallOk(sys, i); }
  }

  /** Calling finalize uses the grant up. */
  lemma FinalizeKeepsSafe(lib: Library, sys: System, pid: nat, id: Id)
    requires Safe(lib, sys) && Grants(sys, pid, id)
    ensures Safe(lib, Move(sys, pid, Waiting(id)).(finalizes := sys.finalizes + [id]))
  {
    var next := Move(sys, pid, Waiting(id)).(finalizes := sys.finalizes + [id]);
    assert GrantOk(sys, pid, id);
    forall p, d ensures GrantOk(next, p, d) { assert GrantOk(sys, p, d); }
    forall p, q, d ensures GrantsApart(next, p, q, d) { assert GrantsApart(sys, p, q, d); }
    forall i ensures CallOk(next, i) { assert CallOk(sys, i); }
    forall i, j ensures CallsApart(next, i, j) {
      assert CallsApart(sys, i, j) && NotYetCalled(sys, pid, i) && NotYetCalled(sys, pid, j);
    }
    forall p, i ensures NotYetCalled(next, p, i) { assert NotYetCalled(sys, p, i) && GrantsApart(sys, p, pid, id); }
  }

  lemma AdvanceKeepsSafe(lib: Library, sys: System, pid: nat, e: Event)
    requires Safe(lib, sys) && pid in sys.processes
    ensures Safe(lib, Advance(lib, sys, pid, e))
  {
    var next := Advance(lib, sys, pid, e);
    match sys.processes[pid]
    case Committing(id) => CommittingKeepsSafe(lib, sys, pid, e);
    case Calling(id, contact) =>
      if contact { FinalizeKeepsSafe(lib, sys, pid, id); } else { QuietKeepsSafe(lib, sys, next); }
    case Waiting(id) => QuietKeepsSafe(lib, sys, next);
    case _ => RecordingKeepsSafe(lib, sys, pid, e);
  }

  lemma CommittingKeepsSafe(lib: Library, sys: System, pid: nat, e: Event)
    requires Safe(lib, sys) && pid in sys.processes && sys.processes[pid].Committing?
    ensures Safe(lib, Advance(lib, sys, pid, e))
  {
    var id, next := sys.processes[pid].id, Advance(lib, sys, pid, e);
    if CommitContact(sys.db, id, e.authority).1 == Ok(true) && next.processes != sys.processes - {pid} {
      GrantKeepsSafe(lib, sys, pid, id, e.authority);
    } else {
      CallKeepsSafe(lib, sys, DoCommitContact(id, e.authority), next);
    }
  }

  lemma RecordingKeepsSafe(lib: Library, sys: System, pid: nat, e: Event)
    requires Safe(lib, sys) && pid in sys.processes
    requires var p := sys.processes[pid];
             p.Accepting? || p.RecordingUnknown? || p.AfterFailure? || p.RecordingConflict?
    ensures Safe(lib, Advance(lib, sys, pid, e))
  {
    var p, next := sys.processes[pid], Advance(lib, sys, pid, e);
    if p.Accepting? { CallKeepsSafe(lib, sys, DoAccept(p.id, p.response), next); }
    else if p.RecordingConflict? { CallKeepsSafe(lib, sys, DoRecordIncident(p.id), next); }
    else { CallKeepsSafe(lib, sys, DoRecordUnknown(p.id), next); }
  }

  lemma TakeKeepsSafe(lib: Library, sys: System, step: Step)
    requires Safe(lib, sys)
    ensures Safe(lib, Take(lib, sys, step))
  {
    match step
    case Other(call) => CallKeepsSafe(lib, sys, call, Take(lib, sys, step));
    case Start(pid, id) => QuietKeepsSafe(lib, sys, Take(lib, sys, step));
    case Crash(pid) => QuietKeepsSafe(lib, sys, Take(lib, sys, step));
    case Resume(pid, e) => if pid in sys.processes { AdvanceKeepsSafe(lib, sys, pid, e); }
  }

  lemma {:induction false} RunIsSafe(lib: Library, steps: seq<Step>)
    ensures Safe(lib, RunSystem(lib, steps))
  {
    if steps == [] { EmptyIsValid(lib); }
    else {
      RunIsSafe(lib, steps[..|steps| - 1]);
      TakeKeepsSafe(lib, RunSystem(lib, steps[..|steps| - 1]), steps[|steps| - 1]);
    }
  }

  /** Over all recover calls, races and crashes the signer's finalize is called at most once per operation. */
  lemma FinalizedAtMostOnce(lib: Library, steps: seq<Step>, i: nat, j: nat)
    requires i < |RunSystem(lib, steps).finalizes| && j < |RunSystem(lib, steps).finalizes| && i != j
    ensures RunSystem(lib, steps).finalizes[i] != RunSystem(lib, steps).finalizes[j]
  {
    RunIsSafe(lib, steps);
    assert CallsApart(RunSystem(lib, steps), i, j);
  }

  /** Whatever was called had its contact committed: the operation is stored, never expired, and never will be. */
  lemma FinalizeFollowsContact(lib: Library, steps: seq<Step>, i: nat)
    requires i < |RunSystem(lib, steps).finalizes|
    ensures var sys := RunSystem(lib, steps);
            var id := sys.finalizes[i];
            && id in sys.db.evidence.contacts && id !in sys.db.evidence.expiries && id in sys.db.operations.rows
            && Contacted(sys.db.operations.rows[id].signerState)
            && sys.db.operations.rows[id].key in sys.db.attempts.rows
            && sys.db.attempts.rows[sys.db.operations.rows[id].key].finalizationId == Some(id)
  {
    var sys := RunSystem(lib, steps);
    RunIsSafe(lib, steps);
    var id := sys.finalizes[i];
    assert CallOk(sys, i) && EntryOk(sys.db.operations, sys.db.evidence, id);
    assert LedgerOk(sys.db.operations, sys.db.evidence, id);
    assert RowOk(lib, sys.db.attempts, sys.db.operations, id);
  }

  /** Once a contradicting callback is on record for an attempt, no run ever grants contact for its operation. */
  lemma ContradictionForbidsContact(lib: Library, calls: seq<Call>, more: seq<Call>, key: Key, id: Id, a: Authority)
    requires Callback(key, Rejected) in Run(lib, calls).evidence.callbacks
             || Callback(key, SponsorResultPresent) in Run(lib, calls).evidence.callbacks
    ensures var later := Run(lib, calls + more);
            id in later.operations.rows && later.operations.rows[id].key == key ==>
              CommitContact(later, id, a).1 != Ok(true)
  {
    RunExtends(lib, calls, more);
  }
}
