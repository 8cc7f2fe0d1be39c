/**
 From whatever the status RPC answers to the reconciliation record that is stored: the RPC decoding, the
 service's checks, its error codes, and the record each path builds.
 */
module DevnetObservation {
  import opened Wrappers
  import opened Decimals
  import opened DevnetLifecycle

  /** A decoded JSON value. A number is a safe integer, or any other number with its printed text. */
  datatype RpcValue =
    | RpcNull
    | RpcBool(bit: bool)
    | RpcInteger(i: int)
    | RpcOtherNumber(printed: string)
    | RpcString(text: string)
    | RpcArray(items: seq<RpcValue>)
    | RpcObject(fields: map<string, RpcValue>)

  const MAX_SAFE_INTEGER: int := 9_007_199_254_740_991

  datatype Status = StatusMissing | StatusPending | StatusSettled | StatusFailed

  datatype HistoryObservation = HistoryObservation(
    status: Status, observedAt: Timestamp, slot: Option<string>, confirmationStatus: Option<string>,
    errorCode: Option<string>, signature: string, historySearched: bool, providerId: string, contextSlot: string)

  /** The string-valued fields of a thrown value the service looks at. */
  datatype Thrown = Thrown(providerErrorCode: Option<string>, code: Option<string>)

  const INVALID_RESPONSE := Thrown(None, Some("INVALID_RESPONSE"))

  function Field(v: RpcValue, name: string): Option<RpcValue> {
    if v.RpcObject? && name in v.fields then Some(v.fields[name]) else None
  }

  /** `integer(value)`: a non-negative safe integer, printed. */
  function Integer(v: Option<RpcValue>): Option<string> {
    match v
    case Some(RpcInteger(i)) => if 0 <= i <= MAX_SAFE_INTEGER then Some(ToDecimal(i)) else None
    case _ => None
  }

  function ObserveSignature(result: RpcValue, signature: string, providerId: string, now: Timestamp,
                            supported: RpcValue -> bool): Result<HistoryObservation, Thrown>
  {
    var context, values := Field(result, "context"), Field(result, "value");
    if context.None? || !context.value.RpcObject? || values.None? || !values.value.RpcArray?
       || |values.value.items| != 1 then
      Err(INVALID_RESPONSE)
    else if Integer(Field(context.value, "slot")).None? then Err(INVALID_RESPONSE)
    else
      var contextSlot, value := Integer(Field(context.value, "slot")).value, values.value.items[0];
      if value.RpcNull? then
        Ok(HistoryObservation(StatusMissing, now, None, None, None, signature, true, providerId, contextSlot))
      else if !value.RpcObject? || Field(value, "err").None?
              || (Field(value, "err") != Some(RpcNull) && !supported(Field(value, "err").value)) then
        Err(INVALID_RESPONSE)
      else if Integer(Field(value, "slot")).None? then Err(INVALID_RESPONSE)
      else
        var slot, confirmation := Integer(Field(value, "slot")).value, Field(value, "confirmationStatus");
        if value.fields["slot"].i > context.value.fields["slot"].i
           || confirmation !in [Some(RpcString("processed")), Some(RpcString("confirmed")),
                                Some(RpcString("finalized"))] then
          Err(INVALID_RESPONSE)
        else
          var seen := HistoryObservation(StatusPending, now, Some(slot), Some(confirmation.value.text), None,
                                         signature, true, providerId, contextSlot);
          if confirmation != Some(RpcString("finalized")) then Ok(seen)
          else if Field(value, "err") != Some(RpcNull) then
            Ok(seen.(status := StatusFailed, errorCode := Some("PROVIDER_REPORTED_FAILURE")))
          else Ok(seen.(status := StatusSettled))
  }

  predicate ValidSignatureIdentity(v: HistoryObservation, signature: string, providerId: string) {
    v.signature == signature && v.historySearched && v.providerId == providerId
  }

  predicate ValidSignatureSemantics(v: HistoryObservation) {
    && Canonical(v.contextSlot) && v.observedAt.finite
    && (!v.status.StatusMissing? ==>
          && v.slot.Some? && Canonical(v.slot.value) && Value(v.slot.value) <= Value(v.contextSlot)
          && match v.status
             case StatusPending => v.confirmationStatus in [Some("processed"), Some("confirmed")]
             case StatusSettled => v.confirmationStatus == Some("finalized")
             case _ => v.confirmationStatus == Some("finalized") && v.errorCode == Some("PROVIDER_REPORTED_FAILURE"))
  }

  /** Whatever the RPC answers, decoding throws or yields an observation the service accepts. */
  lemma ObservationsAreAccepted(result: RpcValue, signature: string, providerId: string, now: Timestamp,
                                supported: RpcValue -> bool)
    requires now.finite
    ensures var r := ObserveSignature(result, signature, providerId, now, supported);
            r.Ok? ==> ValidSignatureSemantics(r.value) && ValidSignatureIdentity(r.value, signature, providerId)
  {
    var r := ObserveSignature(result, signature, providerId, now, supported);
    if r.Ok? {
      ValueOfDecimal(Field(result, "context").value.fields["slot"].i);
      var value := Field(result, "value").value.items[0];
      if value.RpcObject? { ValueOfDecimal(value.fields["slot"].i); }
    }
  }

  // ---- error codes -------------------------------------------------------------------------------

  predicate IsUpperOrDigit(c: char) { 'A' <= c <= 'Z' || IsDigit(c) }

  /** The pattern /^[A-Z0-9_.:-]{1,64}$/. */
  predicate IsProviderCode(s: string) {
    1 <= |s| <= 64 && forall i :: 0 <= i < |s| ==> IsCodeChar(s[i])
  }

  predicate IsCodeChar(c: char) { IsUpperOrDigit(c) || c in ['_', '.', ':', '-'] }

  /** The pattern /^[A-Z0-9_]{1,48}$/. */
  predicate IsRpcCode(s: string) {
    1 <= |s| <= 48 && forall i :: 0 <= i < |s| ==> IsUpperOrDigit(s[i]) || s[i] == '_'
  }

  function ReconciliationErrorCode(error: Thrown): string {
    if error.providerErrorCode.Some? && IsProviderCode(error.providerErrorCode.value) then error.providerErrorCode.value
    else if error.code.Some? && IsRpcCode(error.code.value) then "RPC_" + error.code.value
    else "RPC_UNKNOWN"
  }

  /** Every thrown value yields a code the evidence check accepts. */
  lemma ErrorCodeIsToken(error: Thrown)
    ensures IsErrorToken(ReconciliationErrorCode(error))
  {
    if error.providerErrorCode.Some? && IsProviderCode(error.providerErrorCode.value) {
      assert forall c :: IsCodeChar(c) ==> IsAlphanumeric(c) || c in ['_', '.', ':', '-'];
    }
  }

  /** `replace(/[^A-Z0-9_.:-]+/g, "_")`: each run of other characters becomes one underscore. */
  function Normalized(s: string): string {
    if s == "" then ""
    else if IsCodeChar(s[0]) then [s[0]] + Normalized(s[1..])
    else if |s| > 1 && !IsCodeChar(s[1]) then Normalized(s[1..])
    else "_" + Normalized(s[1..])
  }

  function StripFront(s: string): string {
    if s != "" && s[0] == '_' then StripFront(s[1..]) else s
  }

  function StripBack(s: string): string {
    if s != "" && s[|s| - 1] == '_' then StripBack(s[..|s| - 1]) else s
  }

  /** `upper` is `toUpperCase`; nothing is assumed of it. */
  function Token(s: string, upper: string -> string): string {
    var normalized := StripBack(StripFront(Normalized(upper(s))));
    var code := if normalized == "" then "SOLANA_RPC_REJECTED" else normalized;
    code[..if |code| < 64 then |code| else 64]
  }

  function Signed(i: int): string { if i < 0 then "-" + ToDecimal(-i) else ToDecimal(i) }

  function Printed(v: RpcValue): Option<string> {
    match v
    case RpcInteger(i) => Some(Signed(i))
    case RpcOtherNumber(t) => Some(t)
    case _ => None
  }

  /** The text a provider's error object is reduced to; none for a value that is not an object. */
  function ProviderErrorText(v: RpcValue): Option<string> {
    if !v.RpcObject? then None
    else
      var code := match Field(v, "code")
        case Some(RpcInteger(i)) => "SOLANA_RPC_" + Signed(i)
        case _ => "SOLANA_RPC_REJECTED";
      var err := match Field(v, "data")
        case Some(data) => Field(data, "err")
        case None => None;
      var instruction := match err
        case Some(e) => Field(e, "InstructionError")
        case None => None;
      if instruction.Some? && instruction.value.RpcArray? then
        var parts := instruction.value.items;
        var index := if |parts| > 0 && Printed(parts[0]).Some? then Printed(parts[0]).value else "X";
        var reason := if |parts| > 1 && parts[1].RpcString? then parts[1].text
          else if |parts| > 1 && Field(parts[1], "Custom").Some? && Printed(Field(parts[1], "Custom").value).Some? then
            "CUSTOM_" + Printed(Field(parts[1], "Custom").value).value
          else "PROGRAM_ERROR";
        Some(code + "_IX_" + index + "_" + reason)
      else
        var message := match Field(v, "message")
          case Some(RpcString(m)) => m
          case _ => "REJECTED";
        Some(code + "_" + message)
  }

  function SanitizeProviderError(v: RpcValue, upper: string -> string): string {
    match ProviderErrorText(v)
    case None => "SOLANA_RPC_REJECTED"
    case Some(text) => Token(text, upper)
  }

  lemma {:induction false} NormalizedIsCode(s: string)
    ensures forall i :: 0 <= i < |Normalized(s)| ==> IsCodeChar(Normalized(s)[i])
  {
    if s != "" { NormalizedIsCode(s[1..]); }
  }

  lemma {:induction false} StripFrontKeeps(s: string)
    requires forall i :: 0 <= i < |s| ==> IsCodeChar(s[i])
    ensures forall i :: 0 <= i < |StripFront(s)| ==> IsCodeChar(StripFront(s)[i])
  {
    if s != "" { StripFrontKeeps(s[1..]); }
  }

  lemma {:induction false} StripBackKeeps(s: string)
    requires forall i :: 0 <= i < |s| ==> IsCodeChar(s[i])
    ensures forall i :: 0 <= i < |StripBack(s)| ==> IsCodeChar(StripBack(s)[i])
  {
    if s != "" { StripBackKeeps(s[..|s| - 1]); }
  }

  /** Text of allowed characters is kept, and each run of others between such texts becomes one underscore. */
  lemma {:induction false} RunsCollapse(kept: string, run: string, rest: string)
    requires forall i :: 0 <= i < |kept| ==> IsCodeChar(kept[i])
    requires forall i :: 0 <= i < |run| ==> !IsCodeChar(run[i])
    requires rest != "" ==> IsCodeChar(rest[0])
    ensures Normalized(kept + run + rest) == kept + (if run == "" then "" else "_") + Normalized(rest)
    decreases |kept| + |run|
  {
    var s := kept + run + rest;
    if kept != "" {
      assert s[1..] == kept[1..] + run + rest;
      RunsCollapse(kept[1..], run, rest);
    } else if run != "" {
      assert s[1..] == "" + run[1..] + rest;
      RunsCollapse("", run[1..], rest);
      if |run| > 1 { assert s[1] == run[1]; }
    } else {
      assert s == rest;
    }
  }

  /** A text that already is a code, without underscores at its ends, is its own token. */
  lemma CodesAreKept(s: string, upper: string -> string)
    requires IsProviderCode(upper(s)) && upper(s)[0] != '_' && upper(s)[|upper(s)| - 1] != '_'
    ensures Token(s, upper) == upper(s)
  {
    var code := upper(s);
    RunsCollapse(code, "", "");
    assert code + "" + "" == code;
  }

  lemma TokenIsProviderCode(s: string, upper: string -> string)
    ensures IsProviderCode(Token(s, upper))
  {
    NormalizedIsCode(upper(s));
    StripFrontKeeps(Normalized(upper(s)));
    StripBackKeeps(StripFront(Normalized(upper(s))));
    assert IsProviderCode("SOLANA_RPC_REJECTED");
  }

  /** Whatever error object the provider sent, its code reaches the evidence check unchanged and passes it. */
  lemma ProviderErrorReachesEvidence(v: RpcValue, upper: string -> string)
    ensures var code := SanitizeProviderError(v, upper);
            ReconciliationErrorCode(Thrown(Some(code), Some("PROVIDER"))) == code && IsErrorToken(code)
  {
    var code := SanitizeProviderError(v, upper);
    assert IsProviderCode("SOLANA_RPC_REJECTED");
    if ProviderErrorText(v).Some? { TokenIsProviderCode(ProviderErrorText(v).value, upper); }
    ErrorCodeIsToken(Thrown(Some(code), Some("PROVIDER")));
  }

  // ---- the stored record -------------------------------------------------------------------------

  datatype ProviderAnswer = Threw(error: Thrown) | Answered(observation: HistoryObservation)

  datatype Subject = Subject(
    executionId: Id, actorSubject: Id, preparationId: Id, signature: string, providerId: string)

  /** The error code of the paths that store an unknown outcome; None when the observation itself is stored. */
  function UnknownCode(answer: ProviderAnswer, subject: Subject): Option<string> {
    match answer
    case Threw(error) => Some(ReconciliationErrorCode(error))
    case Answered(o) =>
      if !ValidSignatureIdentity(o, subject.signature, subject.providerId) then Some("RPC_PROVIDER_MISMATCH")
      else if !ValidSignatureSemantics(o) then Some("RPC_INVALID_RESPONSE")
      else if o.status.StatusMissing? then Some("SIGNATURE_STATUS_MISSING")
      else None
  }

  function OutcomeOf(s: Status): ReconciliationOutcome {
    match s
    case StatusMissing => ObservedMissing
    case StatusPending => ObservedPending
    case StatusSettled => ObservedSettled
    case StatusFailed => ObservedFailed
  }

  /** A falsy (absent or empty) text is left out of the record. */
  function Given(o: Option<string>): Option<string> { if o == Some("") then None else o }

  function EvidenceFor(answer: ProviderAnswer, subject: Subject, observationId: Id, now: Timestamp)
    : ReconciliationEvidence
  {
    var code := UnknownCode(answer, subject);
    if code.Some? then
      ReconciliationEvidence(observationId, subject.executionId, subject.actorSubject, subject.preparationId,
                             subject.providerId, subject.signature, ObservedUnknown, now, None, None, code)
    else
      var o := answer.observation;
      ReconciliationEvidence(observationId, subject.executionId, subject.actorSubject, subject.preparationId,
                             subject.providerId, o.signature, OutcomeOf(o.status), o.observedAt, Given(o.slot),
                             Given(o.confirmationStatus), if o.status.StatusFailed? then o.errorCode else None)
  }

  predicate WellFormedSubject(s: Subject) {
    && s.providerId != "" && IsTrimmed(s.providerId) && |s.providerId| <= 128
    && s.signature != "" && IsTrimmed(s.signature) && |s.signature| <= 256
  }

  predicate WellFormedFence(f: Fence) {
    f.leaseOwner != "" && IsTrimmed(f.leaseOwner) && |f.leaseOwner| <= 128 && f.leaseClaimedAt.finite
  }

  lemma UnknownRecordPasses(v: ReconciliationEvidence, fence: Fence)
    requires v.outcome.ObservedUnknown? && v.slot.None? && v.confirmationStatus.None?
    requires v.errorCode.Some? && IsErrorToken(v.errorCode.value)
    requires v.providerId != "" && IsTrimmed(v.providerId) && |v.providerId| <= 128
    requires v.signature != "" && IsTrimmed(v.signature) && |v.signature| <= 256
    ensures ReconciliationRefusal(v, fence).None? <==> v.observedAt.finite && WellFormedFence(fence)
  {
  }

  lemma FixedCodesAreTokens()
    ensures IsErrorToken("RPC_PROVIDER_MISMATCH") && IsErrorToken("RPC_INVALID_RESPONSE")
    ensures IsErrorToken("SIGNATURE_STATUS_MISSING") && IsErrorToken("PROVIDER_REPORTED_FAILURE")
  {
  }

  lemma FixedStatusesAreTokens()
    ensures IsStatusToken("processed") && IsStatusToken("confirmed") && IsStatusToken("finalized")
  {
  }

  /**
   On every path, for every value a provider returns or throws, the record passes the evidence check
   exactly when provider id, signature and fence are well formed and, where it is used, so is the clock.
   */
  lemma EveryRecordPasses(answer: ProviderAnswer, subject: Subject, observationId: Id, now: Timestamp, fence: Fence)
    ensures ReconciliationRefusal(EvidenceFor(answer, subject, observationId, now), fence).None?
            <==> WellFormedSubject(subject) && WellFormedFence(fence)
                 && (UnknownCode(answer, subject).Some? ==> now.finite)
  {
    var v := EvidenceFor(answer, subject, observationId, now);
    FixedCodesAreTokens();
    FixedStatusesAreTokens();
    if UnknownCode(answer, subject).Some? {
      if answer.Threw? { ErrorCodeIsToken(answer.error); }
      if WellFormedSubject(subject) { UnknownRecordPasses(v, fence); }
    }
  }
}
