/**
 What a recover call comes to when nothing interrupts it, from any reachable state and with any other calls suspended
 at any point: one contact at most, and a recorded answer, an unknown result, or an incident.
 */
module SponsorRecovery {
  import opened Wrappers
  import opened SponsorTables
  import opened SponsorSteps
  import opened SponsorFences
  import opened SponsorLedger
  import opened SponsorRuns
  import opened SponsorReplies
  import opened SponsorContact

  function Next(lib: Library, sys: System, pid: nat, e: Event): System { Take(lib, sys, Resume(pid, e)) }

  /** The transaction of the call grants it the contact. */
  ghost predicate Granted(db: Db, id: Id, a: Authority) {
    && id in db.operations.rows && db.operations.rows[id].signerState.NotContacted? && Authorises(a)
    && !SpokenAgainst(db, db.operations.rows[id]) && id !in db.evidence.incidents
  }

  /** The answer is one the operation can take. */
  ghost predicate Takes(lib: Library, o: Operation, response: SignerResponse, frozen: bool) {
    && Identifies(response, o) && (exists p :: Hears(lib, o, response.verdict, p))
    && (response.verdict.RefusedBy? ==> !frozen)
  }

  predicate LosesResult(o: Operation, p: Operation) {
    p == o.(signerState := ResultUnknown, exposureState := Uncertain, version := o.version + 1)
  }

  /** What hearing the signer, or not, makes of a waiting row: an answer it cannot take also leaves an incident. */
  ghost predicate Concludes(lib: Library, db: Db, next: Db, id: Id, response: Option<SignerResponse>) {
    && id in db.operations.rows && id in next.operations.rows && OnlyRow(db, next, id)
    && var o, p, frozen := db.operations.rows[id], next.operations.rows[id], id in db.evidence.incidents;
       if response.None? then LosesResult(o, p) && next.evidence == db.evidence
       else if Takes(lib, o, response.value, frozen) then
         Hears(lib, o, response.value.verdict, p) && next.evidence == db.evidence
       else LosesResult(o, p) && Frozen(db, next, id)
  }

  /** Only that row and the evidence may differ. */
  predicate OnlyRow(db: Db, next: Db, id: Id) {
    id in next.operations.rows
    && next == db.(operations := db.operations.(rows := db.operations.rows[id := next.operations.rows[id]]),
                   evidence := next.evidence)
  }

  predicate Frozen(db: Db, next: Db, id: Id) {
    next.evidence == db.evidence.(incidents := db.evidence.incidents + {id})
  }

  // ---- hearing the signer ----------------------------------------------------------------------------

  lemma UnknownConcludes(lib: Library, sys: System, pid: nat, id: Id, e: Event)
    requires Valid(lib, sys.db) && id in sys.db.operations.rows && Awaits(sys.db.operations.rows[id])
    requires pid in sys.processes && sys.processes[pid] == RecordingUnknown(id)
    ensures var next := Next(lib, sys, pid, e);
            Concludes(lib, sys.db, next.db, id, None) && next.processes == sys.processes - {pid}
            && next.finalizes == sys.finalizes
  {
    assert RowOk(lib, sys.db.attempts, sys.db.operations, id);
  }

  lemma TakenConcludes(lib: Library, sys: System, pid: nat, id: Id, r: SignerResponse, e: Event)
    requires Valid(lib, sys.db) && id in sys.db.operations.rows && Awaits(sys.db.operations.rows[id])
    requires pid in sys.processes && sys.processes[pid] == Accepting(id, r)
    ensures var next, frozen := Next(lib, sys, pid, e), id in sys.db.evidence.incidents;
            && next.finalizes == sys.finalizes
            && if Takes(lib, sys.db.operations.rows[id], r, frozen)
               then Concludes(lib, sys.db, next.db, id, Some(r)) && next.processes == sys.processes - {pid}
               else exists conflict :: next == Move(sys, pid, AfterFailure(id, conflict)) && (conflict || frozen)
  {
    AnswerAcceptedIff(lib, sys.db, id, r);
    assert RowOk(lib, sys.db.attempts, sys.db.operations, id);
    var next := Next(lib, sys, pid, e);
    if !Takes(lib, sys.db.operations.rows[id], r, id in sys.db.evidence.incidents) {
      var conflict := Accept(lib, sys.db, id, r).1.error.SignerConflict?;
      assert next == Move(sys, pid, AfterFailure(id, conflict));
      if !conflict { FrozenNeedsIncident(lib, sys.db, id, r); }
    }
  }

  lemma FrozenNeedsIncident(lib: Library, db: Db, id: Id, r: SignerResponse)
    requires Accept(lib, db, id, r).1 == Err(Refusal.Frozen)
    requires id in db.operations.rows && db.operations.rows[id].id == id
    ensures id in db.evidence.incidents
  {
  }

  lemma FailureConcludes(lib: Library, sys: System, pid: nat, id: Id, conflict: bool, r: SignerResponse, e: Event,
                         f: Event)
    requires Valid(lib, sys.db) && id in sys.db.operations.rows && Awaits(sys.db.operations.rows[id])
    requires pid in sys.processes && sys.processes[pid] == AfterFailure(id, conflict)
    requires !Takes(lib, sys.db.operations.rows[id], r, id in sys.db.evidence.incidents)
    requires conflict || id in sys.db.evidence.incidents
    ensures var next := Next(lib, Next(lib, sys, pid, e), pid, f);
            Concludes(lib, sys.db, next.db, id, Some(r)) && next.processes == sys.processes - {pid}
            && next.finalizes == sys.finalizes
  {
    assert RowOk(lib, sys.db.attempts, sys.db.operations, id);
    var o := sys.db.operations.rows[id];
    var p := o.(signerState := ResultUnknown, exposureState := Uncertain, version := o.version + 1);
    var db := sys.db.(operations := sys.db.operations.(rows := sys.db.operations.rows[id := p]));
    assert RecordUnknown(sys.db, id) == (db, Ok(p));
    if conflict {
      var mid := Move(sys.(db := db), pid, RecordingConflict(id));
      assert Next(lib, sys, pid, e) == mid && mid.processes - {pid} == sys.processes - {pid};
    } else {
      assert sys.db.evidence.incidents + {id} == sys.db.evidence.incidents;
      assert Next(lib, sys, pid, e) == End(sys.(db := db), pid);
    }
  }

  // ---- the whole call --------------------------------------------------------------------------------

  /** The four steps after the signer was called. */
  lemma WaitingConcludes(lib: Library, sys: System, pid: nat, id: Id, a: Event, b: Event, c: Event, d: Event)
    requires Valid(lib, sys.db) && id in sys.db.operations.rows && Awaits(sys.db.operations.rows[id])
    requires pid in sys.processes && sys.processes[pid] == Waiting(id)
    ensures var next := Next(lib, Next(lib, Next(lib, Next(lib, sys, pid, a), pid, b), pid, c), pid, d);
            Concludes(lib, sys.db, next.db, id, a.response) && next.processes == sys.processes - {pid}
            && next.finalizes == sys.finalizes
  {
    var heard := Next(lib, sys, pid, a);
    assert heard.db == sys.db && heard.processes - {pid} == sys.processes - {pid};
    if a.response.None? {
      UnknownConcludes(lib, heard, pid, id, b);
    } else {
      AnswerConcludes(lib, heard, pid, id, a.response.value, b, c, d);
    }
  }

  lemma AnswerConcludes(lib: Library, sys: System, pid: nat, id: Id, r: SignerResponse, b: Event, c: Event, d: Event)
    requires Valid(lib, sys.db) && id in sys.db.operations.rows && Awaits(sys.db.operations.rows[id])
    requires pid in sys.processes && sys.processes[pid] == Accepting(id, r)
    ensures var next := Next(lib, Next(lib, Next(lib, sys, pid, b), pid, c), pid, d);
            Concludes(lib, sys.db, next.db, id, Some(r)) && next.processes == sys.processes - {pid}
            && next.finalizes == sys.finalizes
  {
    TakenConcludes(lib, sys, pid, id, r, b);
    var next, frozen := Next(lib, sys, pid, b), id in sys.db.evidence.incidents;
    if !Takes(lib, sys.db.operations.rows[id], r, frozen) {
      var conflict :| next == Move(sys, pid, AfterFailure(id, conflict)) && (conflict || frozen);
      FailureConcludes(lib, next, pid, id, conflict, r, c, d);
      assert next.processes - {pid} == sys.processes - {pid};
    }
  }

  /** The row after the call's first transaction. */
  ghost function Committed(db: Db, id: Id, a: Authority): Db { CommitContact(db, id, a).0 }

  /**
   From every reachable state an uninterrupted recover call calls the signer's finalize iff it is granted contact, and
   otherwise only queries a row that still waits. Its answer becomes the row's result when the row can take it; an
   answer it cannot take leaves the result unknown and the operation frozen, and no answer leaves it unknown.
   */
  lemma UninterruptedRecover(lib: Library, steps: seq<Step>, pid: nat, id: Id, events: seq<Event>)
    requires |events| == 6 && pid !in RunSystem(lib, steps).processes
    ensures var sys, a := RunSystem(lib, steps), events[0].authority;
            var next := RecoverAll(lib, sys, pid, id, events);
            && next.processes == sys.processes
            && next.finalizes == (if Granted(sys.db, id, a) then sys.finalizes + [id] else sys.finalizes)
            && if Granted(sys.db, id, a) then
                 && id in Committed(sys.db, id, a).operations.rows
                 && Contacts(sys.db.operations.rows[id], Committed(sys.db, id, a).operations.rows[id])
                 && Concludes(lib, Committed(sys.db, id, a), next.db, id, events[2].response)
               else if id in sys.db.operations.rows && Awaits(sys.db.operations.rows[id]) then
                 Concludes(lib, sys.db, next.db, id, events[2].response)
               else next.db == sys.db
  {
    var sys, a := RunSystem(lib, steps), events[0].authority;
    RunIsSafe(lib, steps);
    ContactGrantedIff(lib, sys.db, id, a);
    var committing := Move(sys, pid, Committing(id));
    assert Take(lib, sys, Start(pid, id)) == committing && committing.processes - {pid} == sys.processes;
    ApplyValid(lib, sys.db, DoCommitContact(id, a));
    if Granted(sys.db, id, a) {
      CallsAndWaits(lib, sys, pid, id, Committed(sys.db, id, a), true, events);
    } else if id in sys.db.operations.rows && Awaits(sys.db.operations.rows[id]) {
      CallsAndWaits(lib, sys, pid, id, sys.db, false, events);
    } else {
      assert Next(lib, committing, pid, events[0]) == sys;
    }
  }

  function RecoverAll(lib: Library, sys: System, pid: nat, id: Id, events: seq<Event>): System
    requires |events| == 6
  {
    var called := Next(lib, Next(lib, Take(lib, sys, Start(pid, id)), pid, events[0]), pid, events[1]);
    Next(lib, Next(lib, Next(lib, Next(lib, called, pid, events[2]), pid, events[3]), pid, events[4]), pid, events[5])
  }

  lemma CommitCalls(lib: Library, sys: System, pid: nat, id: Id, db: Db, contact: bool, e: Event)
    requires pid !in sys.processes && id in db.operations.rows && Awaits(db.operations.rows[id])
    requires CommitContact(sys.db, id, e.authority) == (db, Ok(contact))
    ensures Next(lib, Take(lib, sys, Start(pid, id)), pid, e) == Move(sys.(db := db), pid, Calling(id, contact))
  {
    assert Take(lib, sys, Start(pid, id)) == Move(sys, pid, Committing(id));
  }

  lemma CallsAndWaits(lib: Library, sys: System, pid: nat, id: Id, db: Db, contact: bool, events: seq<Event>)
    requires Valid(lib, db) && |events| == 6 && pid !in sys.processes
    requires id in db.operations.rows && Awaits(db.operations.rows[id])
    requires CommitContact(sys.db, id, events[0].authority) == (db, Ok(contact))
    ensures var next := RecoverAll(lib, sys, pid, id, events);
            && next.processes == sys.processes && Concludes(lib, db, next.db, id, events[2].response)
            && next.finalizes == (if contact then sys.finalizes + [id] else sys.finalizes)
  {
    var calling := Move(sys.(db := db), pid, Calling(id, contact));
    var finalizes := if contact then sys.finalizes + [id] else sys.finalizes;
    var waiting := Move(sys.(db := db, finalizes := finalizes), pid, Waiting(id));
    CommitCalls(lib, sys, pid, id, db, contact, events[0]);
    assert Next(lib, calling, pid, events[1]) == waiting;
    WaitingConcludes(lib, waiting, pid, id, events[2], events[3], events[4], events[5]);
    assert waiting.processes - {pid} == sys.processes;
  }
}
