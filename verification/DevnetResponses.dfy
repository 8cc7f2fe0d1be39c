/**
 From the status response of the RPC to the stored lifecycle state: what a response says, read off its shape alone,
 is what is observed, recorded and stood by, and a response that says nothing is recorded as unknown.
 */
module DevnetResponses {
  import opened Wrappers
  import opened Decimals
  import opened DevnetLifecycle
  import opened DevnetStore
  import opened DevnetStoreInvariant
  import opened DevnetStoreRuns
  import opened DevnetObservation
  import opened DevnetAnswers
  import opened DevnetStanding

  /** What a status response can say of a signature, seen from the given context slot. */
  datatype Report =
    | ReportsMissing(context: nat)
    | ReportsPending(context: nat, slot: nat, confirmation: string)
    | ReportsSettled(context: nat, slot: nat)
    | ReportsFailed(context: nat, slot: nat)

  predicate Has(v: RpcValue, name: string, value: RpcValue) {
    v.RpcObject? && name in v.fields && v.fields[name] == value
  }

  predicate HasSlot(v: RpcValue, slot: nat) { slot <= MAX_SAFE_INTEGER && Has(v, "slot", RpcInteger(slot)) }

  /** The response holds exactly one status, seen from that slot. */
  predicate Holds(response: RpcValue, context: nat, status: RpcValue) {
    && response.RpcObject? && "context" in response.fields && HasSlot(response.fields["context"], context)
    && Has(response, "value", RpcArray([status]))
  }

  predicate HasError(status: RpcValue, supported: RpcValue -> bool) {
    status.RpcObject? && "err" in status.fields && status.fields["err"] != RpcNull && supported(status.fields["err"])
  }

  predicate Says(response: RpcValue, report: Report, supported: RpcValue -> bool) {
    && response.RpcObject? && "value" in response.fields && response.fields["value"].RpcArray?
    && |response.fields["value"].items| == 1
    && var status := response.fields["value"].items[0];
       && Holds(response, report.context, status)
       && match report
          case ReportsMissing(_) => status == RpcNull
          case ReportsPending(context, slot, confirmation) =>
            HasSlot(status, slot) && slot <= context && confirmation in ["processed", "confirmed"]
            && Has(status, "confirmationStatus", RpcString(confirmation))
            && (Has(status, "err", RpcNull) || HasError(status, supported))
          case ReportsSettled(context, slot) =>
            HasSlot(status, slot) && slot <= context && Has(status, "confirmationStatus", RpcString("finalized"))
            && Has(status, "err", RpcNull)
          case ReportsFailed(context, slot) =>
            HasSlot(status, slot) && slot <= context && Has(status, "confirmationStatus", RpcString("finalized"))
            && HasError(status, supported)
  }

  /** The observation tells what was reported, of that signature and by that provider. */
  predicate Tells(o: HistoryObservation, report: Report, signature: string, providerId: string, now: Timestamp) {
    && o.signature == signature && o.providerId == providerId && o.historySearched && o.observedAt == now
    && o.contextSlot == ToDecimal(report.context)
    && match report
       case ReportsMissing(_) =>
         o.status.StatusMissing? && o.slot.None? && o.confirmationStatus.None? && o.errorCode.None?
       case ReportsPending(_, slot, confirmation) =>
         o.status.StatusPending? && o.slot == Some(ToDecimal(slot)) && o.confirmationStatus == Some(confirmation)
         && o.errorCode.None?
       case ReportsSettled(_, slot) =>
         o.status.StatusSettled? && o.slot == Some(ToDecimal(slot)) && o.confirmationStatus == Some("finalized")
         && o.errorCode.None?
       case ReportsFailed(_, slot) =>
         o.status.StatusFailed? && o.slot == Some(ToDecimal(slot)) && o.confirmationStatus == Some("finalized")
         && o.errorCode == Some("PROVIDER_REPORTED_FAILURE")
  }

  /** What the decoder reads: the report of the two slots and the status, if there is one. */
  lemma SaidIsTold(response: RpcValue, report: Report, signature: string, providerId: string, now: Timestamp,
                   supported: RpcValue -> bool)
    requires Says(response, report, supported)
    ensures var r := ObserveSignature(response, signature, providerId, now, supported);
            r.Ok? && Tells(r.value, report, signature, providerId, now)
  {
    var status := response.fields["value"].items[0];
    assert Field(response, "context") == Some(response.fields["context"]);
    assert Integer(Field(response.fields["context"], "slot")) == Some(ToDecimal(report.context));
    if !report.ReportsMissing? {
      assert Integer(Field(status, "slot")) == Some(ToDecimal(report.slot));
    }
  }

  lemma ToldOnce(o: HistoryObservation, a: Report, b: Report, signature: string, providerId: string, now: Timestamp)
    requires Tells(o, a, signature, providerId, now) && Tells(o, b, signature, providerId, now)
    ensures a == b
  {
    DecimalInjective(a.context, b.context);
    if !a.ReportsMissing? { DecimalInjective(a.slot, b.slot); }
  }

  lemma ObservedIsSaid(response: RpcValue, signature: string, providerId: string, now: Timestamp,
                       supported: RpcValue -> bool)
    requires ObserveSignature(response, signature, providerId, now, supported).Ok?
    ensures exists report :: Says(response, report, supported)
  {
    var status, c := response.fields["value"].items[0], response.fields["context"].fields["slot"].i;
    assert response.fields["value"] == RpcArray([status]);
    if status == RpcNull {
      assert Says(response, ReportsMissing(c), supported);
    } else {
      var slot, confirmation := status.fields["slot"].i, status.fields["confirmationStatus"].text;
      if confirmation != "finalized" { assert Says(response, ReportsPending(c, slot, confirmation), supported); }
      else if status.fields["err"] == RpcNull { assert Says(response, ReportsSettled(c, slot), supported); }
      else { assert Says(response, ReportsFailed(c, slot), supported); }
    }
  }

  /**
   Decoding tells a report exactly when the response says it, and throws exactly when the response says nothing: it
   is missing iff the one status is null, pending iff its confirmation is, settled iff finalized without an error and
   failed iff finalized with a supported one, at a slot no later than the context.
   */
  lemma ObservedIffSaid(response: RpcValue, report: Report, signature: string, providerId: string, now: Timestamp,
                        supported: RpcValue -> bool)
    ensures var r := ObserveSignature(response, signature, providerId, now, supported);
            && (r.Ok? && Tells(r.value, report, signature, providerId, now) <==> Says(response, report, supported))
            && (r.Err? <==> forall other :: !Says(response, other, supported))
            && (r.Err? ==> r.error.code == Some("INVALID_RESPONSE") && r.error.providerErrorCode.None?)
  {
    forall other | Says(response, other, supported)
      ensures ObserveSignature(response, signature, providerId, now, supported).Ok?
      ensures Tells(ObserveSignature(response, signature, providerId, now, supported).value, other, signature,
                    providerId, now)
    {
      SaidIsTold(response, other, signature, providerId, now, supported);
    }
    var r := ObserveSignature(response, signature, providerId, now, supported);
    if r.Ok? {
      ObservedIsSaid(response, signature, providerId, now, supported);
      var said :| Says(response, said, supported);
      if Tells(r.value, report, signature, providerId, now) {
        ToldOnce(r.value, report, said, signature, providerId, now);
      }
    }
  }

  // ---- the record and the state --------------------------------------------------------------------------

  /** What the reconciliation provider hands to the service for a response. */
  function Polled(response: RpcValue, subject: Subject, now: Timestamp, supported: RpcValue -> bool): ProviderAnswer {
    match ObserveSignature(response, subject.signature, subject.providerId, now, supported)
    case Ok(o) => Answered(o)
    case Err(error) => Threw(error)
  }

  /** The record of a report; a signature reported missing, like a thrown value, leaves the outcome unknown. */
  predicate RecordsReport(v: ReconciliationEvidence, report: Report) {
    match report
    case ReportsMissing(_) =>
      v.outcome.ObservedUnknown? && v.errorCode == Some("SIGNATURE_STATUS_MISSING") && v.slot.None?
      && v.confirmationStatus.None?
    case ReportsPending(_, slot, confirmation) =>
      v.outcome.ObservedPending? && v.errorCode.None? && v.slot == Some(ToDecimal(slot))
      && v.confirmationStatus == Some(confirmation)
    case ReportsSettled(_, slot) =>
      v.outcome.ObservedSettled? && v.errorCode.None? && v.slot == Some(ToDecimal(slot))
      && v.confirmationStatus == Some("finalized")
    case ReportsFailed(_, slot) =>
      v.outcome.ObservedFailed? && v.errorCode == Some("PROVIDER_REPORTED_FAILURE")
      && v.slot == Some(ToDecimal(slot)) && v.confirmationStatus == Some("finalized")
  }

  predicate RecordsNothing(v: ReconciliationEvidence) {
    v.outcome.ObservedUnknown? && v.errorCode == Some("RPC_INVALID_RESPONSE") && v.slot.None?
    && v.confirmationStatus.None?
  }

  lemma ToldIsAccepted(o: HistoryObservation, report: Report, signature: string, providerId: string, now: Timestamp)
    requires now.finite && Tells(o, report, signature, providerId, now)
    requires !report.ReportsMissing? ==> report.slot <= report.context
    requires report.ReportsPending? ==> report.confirmation in ["processed", "confirmed"]
    ensures ValidSignatureSemantics(o) && ValidSignatureIdentity(o, signature, providerId)
  {
    ValueOfDecimal(report.context);
    if !report.ReportsMissing? { ValueOfDecimal(report.slot); }
  }

  /** The evidence records a report exactly when the response says it. */
  lemma RecordedIffSaid(response: RpcValue, report: Report, subject: Subject, id: Id, now: Timestamp,
                        supported: RpcValue -> bool)
    requires now.finite
    ensures var v := EvidenceFor(Polled(response, subject, now, supported), subject, id, now);
            && (Says(response, report, supported) ==> RecordsReport(v, report))
            && ((forall other :: !Says(response, other, supported)) <==> RecordsNothing(v))
  {
    ObservedIffSaid(response, report, subject.signature, subject.providerId, now, supported);
    if Says(response, report, supported) { SaidIsRecorded(response, report, subject, id, now, supported); }
    if exists other :: Says(response, other, supported) {
      var other :| Says(response, other, supported);
      SaidIsRecorded(response, other, subject, id, now, supported);
    }
    InvalidResponseCode();
  }

  lemma InvalidResponseCode()
    ensures ReconciliationErrorCode(INVALID_RESPONSE) == "RPC_INVALID_RESPONSE" != "SIGNATURE_STATUS_MISSING"
  {
    assert IsRpcCode("INVALID_RESPONSE") && "RPC_" + "INVALID_RESPONSE" == "RPC_INVALID_RESPONSE";
    assert "SIGNATURE_STATUS_MISSING"[0] != "RPC_INVALID_RESPONSE"[0];
  }

  lemma SaidIsRecorded(response: RpcValue, report: Report, subject: Subject, id: Id, now: Timestamp,
                       supported: RpcValue -> bool)
    requires now.finite && Says(response, report, supported)
    ensures RecordsReport(EvidenceFor(Polled(response, subject, now, supported), subject, id, now), report)
  {
    SaidIsTold(response, report, subject.signature, subject.providerId, now, supported);
    var o := ObserveSignature(response, subject.signature, subject.providerId, now, supported).value;
    ToldIsAccepted(o, report, subject.signature, subject.providerId, now);
    if !report.ReportsMissing? { ValueOfDecimal(report.slot); }
  }

  function StateFor(report: Option<Report>): LifecycleState {
    match report
    case Some(ReportsPending(_, _, _)) => AcceptedPending
    case Some(ReportsSettled(_, _)) => Settled
    case Some(ReportsFailed(_, _)) => Failed
    case _ => UnknownReconciliationRequired
  }

  lemma RecordDecidesState(s: Store, v: ReconciliationEvidence, report: Option<Report>, fence: Fence)
    requires Valid(s) && if report.Some? then RecordsReport(v, report.value) else RecordsNothing(v)
    ensures var next := RecordReconciliation(s, v, fence).0;
            next != s ==> StandingOf(next, v.executionId) == Some(StateFor(report))
  {
    ObservationDecides(s, v, fence, v.executionId);
  }

  /** A recorded response leaves the committed execution in the state of what it says. */
  lemma ResponseDecidesState(s: Store, response: RpcValue, report: Option<Report>, subject: Subject, id: Id,
                             now: Timestamp, supported: RpcValue -> bool, fence: Fence)
    requires Valid(s) && now.finite
    requires match report
             case Some(said) => Says(response, said, supported)
             case None => forall other :: !Says(response, other, supported)
    ensures var v := EvidenceFor(Polled(response, subject, now, supported), subject, id, now);
            var next := RecordReconciliation(s, v, fence).0;
            next != s ==> StandingOf(next, subject.executionId) == Some(StateFor(report))
  {
    var v := EvidenceFor(Polled(response, subject, now, supported), subject, id, now);
    RecordedIffSaid(response, if report.Some? then report.value else ReportsMissing(0), subject, id, now, supported);
    RecordDecidesState(s, v, report, fence);
  }
}
