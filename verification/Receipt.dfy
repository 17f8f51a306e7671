/**
  Agent receipts: `_normalize_receipt` and its section normalisers. A receipt is one record before and
  after normalisation, as it is one kind of dictionary in the code; an optional key is an `Option`.
 */
module Receipt {
  import opened Basics
  import opened Text
  import opened Time

  const RECEIPT_KIND := "paybond.agent_receipt_v1"
  const RECEIPT_VERSION := "1"
  const SIGNING_ALGORITHM := "ed25519-sha256-json-v1"
  const MANDATE_ATTESTATION_KIND := "agent_mandate_v1"

  datatype Agent = Agent(
    operatorDid: string, modelFamily: string, modelInstanceId: Option<string>,
    configHash: string, promptHash: string, deploymentEpoch: Option<int>)

  datatype Policy = Policy(
    templateId: string, versionSeq: Option<int>, contentDigest: string, spendPolicyVersion: Option<int>)

  datatype Authorization = Authorization(
    principalDid: string, actorSubject: string, agent: Agent, decisionId: string, auditId: Option<string>,
    policy: Policy, authorizedAt: string, requestedSpendCents: int, currency: string, reasonCodes: seq<string>,
    mandateDigest: Option<string>, mandateReferenceId: Option<string>, zkPolicyProof: Option<string>)

  datatype Execution = Execution(
    runId: string, toolCallId: string, toolName: string, operation: string, argumentsDigest: string,
    resultDigest: Option<string>, outcome: string, startedAt: string, completedAt: string,
    durationMs: Option<int>, teeAttestation: Option<string>)

  datatype Merchant = Merchant(payeeDid: string, vendorId: Option<string>, vendorRefId: Option<string>)

  datatype Evidence = Evidence(
    completionPresetId: string, payloadDigest: string, artifactsDigest: Option<string>, predicatePassed: bool,
    payeeDid: string, payeeSignatureDigest: Option<string>)

  datatype Payment = Payment(
    intentId: string, settlementRail: string, fundingMethod: Option<string>, fundingReference: Option<string>,
    fundingReceiptDigest: Option<string>)

  datatype Outcome = Outcome(
    harborState: string, spendReservation: Option<string>, predicatePassed: Option<bool>,
    settlementOutcome: Option<string>)

  /** A missing `ledger_seq` is 0. */
  datatype References = References(intentId: string, ledgerSeq: int, settlementReceiptId: Option<string>)

  datatype Attestation = Attestation(source: string, kind: string, digest: string, referenceId: Option<string>)

  datatype Continuity = Continuity(prevDigest: Option<string>, sequenceNumber: int, runId: string)

  datatype OperatorAttestation = OperatorAttestation(
    operatorDid: string, publicKeyHex: string, messageDigestHex: string, signatureHex: string)

  /** A missing version, kind or algorithm is 0 or empty. */
  datatype Receipt = Receipt(
    schemaVersion: int, kind: string, receiptVersion: string, scope: string, receiptId: string, issuedAt: string,
    tenantId: string, authorization: Authorization, execution: Option<Execution>, merchant: Option<Merchant>,
    evidence: Option<Evidence>, payment: Option<Payment>, outcome: Outcome, references: References,
    attestations: seq<Attestation>, continuity: Option<Continuity>, operatorAttestation: Option<OperatorAttestation>,
    signingAlgorithm: string, messageDigestHex: string, publicKeyHex: string, signatureHex: string)

  // ----- Field normalisers

  function Token(value: string): Result<string> {
    if IsScopeToken(StripLower(value)) then Ok(StripLower(value)) else Err(Malformed)
  }

  function Uuid(value: string): Result<string> {
    if IsUuid(StripLower(value)) then Ok(StripLower(value)) else Err(Malformed)
  }

  function Hex64(value: string): Result<string> {
    if IsHex64(StripLower(value)) then Ok(StripLower(value)) else Err(Malformed)
  }

  function Nonblank(value: string): Result<string> {
    if Strip(value) != "" then Ok(Strip(value)) else Err(Missing)
  }

  /** `_format_rfc3339_seconds` */
  function Stamp(calendar: Calendar, value: string): Result<string> {
    if calendar.parse(value).None? then Err(Malformed) else Ok(calendar.Printed(value))
  }

  /** Absent for Python: a missing key or an empty string. */
  predicate Falsy(o: Option<string>) {
    o.None? || o.value == ""
  }

  function OptToken(o: Option<string>): Result<Option<string>> {
    if Falsy(o) then Ok(None)
    else
      var t :- Token(o.value);
      Ok(Some(t))
  }

  function OptUuid(o: Option<string>): Result<Option<string>> {
    if Falsy(o) then Ok(None)
    else
      var t :- Uuid(o.value);
      Ok(Some(t))
  }

  /** Present keys are checked before trimming: a blank string is malformed. */
  function OptHex(o: Option<string>): Result<Option<string>> {
    if Falsy(o) then Ok(None)
    else
      var t :- Hex64(o.value);
      Ok(Some(t))
  }

  /** Present keys are checked after trimming: a blank string is absent. */
  function OptHexLenient(o: Option<string>): Result<Option<string>> {
    if Falsy(o) || StripLower(o.value) == "" then Ok(None)
    else
      var t :- Hex64(o.value);
      Ok(Some(t))
  }

  /** A blank string is kept, as the empty string. */
  function OptStrip(o: Option<string>): Option<string> {
    if Falsy(o) then None else Some(Strip(o.value))
  }

  /** A blank string is dropped. */
  function OptStripLenient(o: Option<string>): Option<string> {
    if Falsy(o) || Strip(o.value) == "" then None else Some(Strip(o.value))
  }

  /** What a second pass makes of a kept empty string. */
  function Settle(o: Option<string>): Option<string> {
    if Falsy(o) then None else o
  }

  // ----- A second pass over a field

  lemma NonblankTwice(v: string)
    requires Nonblank(v).Ok?
    ensures Nonblank(Nonblank(v).value) == Nonblank(v)
  {
    hide Strip;
    StripTwice(v);
  }

  lemma TokenTwice(v: string)
    requires Token(v).Ok?
    ensures Token(Token(v).value) == Token(v) && Token(v).value != ""
  {
    hide StripLower;
    FoldTwice(v);
  }

  lemma UuidTwice(v: string)
    requires Uuid(v).Ok?
    ensures Uuid(Uuid(v).value) == Uuid(v) && Uuid(v).value != "" && StripLower(Uuid(v).value) == Uuid(v).value
  {
    hide StripLower;
    FoldTwice(v);
  }

  lemma Hex64Twice(v: string)
    requires Hex64(v).Ok?
    ensures Hex64(Hex64(v).value) == Hex64(v) && Hex64(v).value != "" && StripLower(Hex64(v).value) == Hex64(v).value
  {
    hide StripLower;
    FoldTwice(v);
  }

  lemma StampTwice(calendar: Calendar, v: string)
    requires calendar.PrintsBack(v)
    ensures Stamp(calendar, v).Ok? && Stamp(calendar, Stamp(calendar, v).value) == Stamp(calendar, v)
  {
    TruncateTwice(calendar.parse(v).value);
  }

  lemma OptTokenTwice(o: Option<string>)
    requires OptToken(o).Ok?
    ensures OptToken(OptToken(o).value) == OptToken(o)
  {
    hide Token;
    if !Falsy(o) {
      TokenTwice(o.value);
    }
  }

  lemma OptUuidTwice(o: Option<string>)
    requires OptUuid(o).Ok?
    ensures OptUuid(OptUuid(o).value) == OptUuid(o)
  {
    hide Uuid;
    if !Falsy(o) {
      UuidTwice(o.value);
    }
  }

  lemma OptHexTwice(o: Option<string>)
    requires OptHex(o).Ok?
    ensures OptHex(OptHex(o).value) == OptHex(o)
  {
    hide Hex64;
    if !Falsy(o) {
      Hex64Twice(o.value);
    }
  }

  lemma OptHexLenientTwice(o: Option<string>)
    requires OptHexLenient(o).Ok?
    ensures OptHexLenient(OptHexLenient(o).value) == OptHexLenient(o)
  {
    hide Hex64, StripLower;
    if !Falsy(o) && StripLower(o.value) != "" {
      Hex64Twice(o.value);
    }
  }

  lemma OptStripLenientTwice(o: Option<string>)
    ensures OptStripLenient(OptStripLenient(o)) == OptStripLenient(o)
  {
    hide Strip;
    if o.Some? {
      StripTwice(o.value);
    }
  }

  lemma OptStripTwice(o: Option<string>)
    ensures OptStrip(OptStrip(o)) == Settle(OptStrip(o))
  {
    hide Strip;
    if o.Some? {
      StripTwice(o.value);
    }
  }

  // ----- Sections

  function NormalizeAgent(a: Agent): Result<Agent> {
    var operatorDid :- Nonblank(a.operatorDid);
    var configHash :- Hex64(a.configHash);
    var promptHash :- Hex64(a.promptHash);
    var modelFamily :- Token(a.modelFamily);
    Ok(Agent(operatorDid, modelFamily, OptStrip(a.modelInstanceId), configHash, promptHash, a.deploymentEpoch))
  }

  function NormalizePolicy(p: Policy): Result<Policy> {
    var templateId :- Nonblank(p.templateId);
    var digest :- Hex64(p.contentDigest);
    Ok(p.(templateId := templateId, contentDigest := digest))
  }

  /** First occurrences of the folded codes, in order. */
  function ReasonCodes(values: seq<string>): Result<seq<string>> {
    if values == [] then Ok([])
    else
      var front :- ReasonCodes(values[..|values| - 1]);
      var last :- Token(values[|values| - 1]);
      Ok(if last in front then front else front + [last])
  }

  predicate IsCurrency(s: string) {
    |s| == 3 && forall i :: 0 <= i < 3 ==> 'a' <= s[i] <= 'z'
  }

  function AuthorizationParties(a: Authorization): Result<Authorization> {
    var principalDid :- Nonblank(a.principalDid);
    var actorSubject :- Nonblank(a.actorSubject);
    :- Require(IsCurrency(StripLower(a.currency)), Malformed);
    :- Require(a.requestedSpendCents >= 0, OutOfRange);
    var agent :- NormalizeAgent(a.agent);
    var policy :- NormalizePolicy(a.policy);
    Ok(a.(principalDid := principalDid, actorSubject := actorSubject, currency := StripLower(a.currency),
          agent := agent, policy := policy))
  }

  function AuthorizationDetails(calendar: Calendar, a: Authorization): Result<Authorization> {
    var decisionId :- Uuid(a.decisionId);
    var authorizedAt :- Stamp(calendar, a.authorizedAt);
    var reasonCodes :- ReasonCodes(a.reasonCodes);
    var auditId :- OptUuid(a.auditId);
    var mandateDigest :- OptHexLenient(a.mandateDigest);
    :- Require(OptStripLenient(a.mandateReferenceId).None? || mandateDigest.Some?, Missing);
    var zkPolicyProof :- OptHexLenient(a.zkPolicyProof);
    Ok(a.(decisionId := decisionId, authorizedAt := authorizedAt, reasonCodes := reasonCodes, auditId := auditId,
          mandateDigest := mandateDigest, mandateReferenceId := OptStripLenient(a.mandateReferenceId),
          zkPolicyProof := zkPolicyProof))
  }

  function NormalizeAuthorization(calendar: Calendar, a: Authorization): Result<Authorization> {
    var parties :- AuthorizationParties(a);
    AuthorizationDetails(calendar, parties)
  }

  predicate IsExecutionOutcome(s: string) {
    s == "executed" || s == "denied" || s == "skipped" || s == "failed"
  }

  function ExecutionIdentity(e: Execution): Result<Execution> {
    var toolCallId :- Nonblank(e.toolCallId);
    var argumentsDigest :- Hex64(e.argumentsDigest);
    :- Require(IsExecutionOutcome(StripLower(e.outcome)), Malformed);
    var runId :- Uuid(e.runId);
    var toolName :- Token(e.toolName);
    var operation :- Token(e.operation);
    Ok(e.(toolCallId := toolCallId, argumentsDigest := argumentsDigest, outcome := StripLower(e.outcome),
          runId := runId, toolName := toolName, operation := operation))
  }

  function ExecutionTimes(calendar: Calendar, e: Execution): Result<Execution> {
    var startedAt :- Stamp(calendar, e.startedAt);
    var completedAt :- Stamp(calendar, e.completedAt);
    var resultDigest :- OptHex(e.resultDigest);
    :- Require(e.durationMs.None? || e.durationMs.value >= 0, OutOfRange);
    var teeAttestation :- OptHexLenient(e.teeAttestation);
    Ok(e.(startedAt := startedAt, completedAt := completedAt, resultDigest := resultDigest,
          teeAttestation := teeAttestation))
  }

  function NormalizeExecution(calendar: Calendar, e: Execution): Result<Execution> {
    var identity :- ExecutionIdentity(e);
    ExecutionTimes(calendar, identity)
  }

  function NormalizeMerchant(m: Merchant): Result<Merchant> {
    var payeeDid :- Nonblank(m.payeeDid);
    var vendorId :- OptToken(m.vendorId);
    Ok(Merchant(payeeDid, vendorId, OptStrip(m.vendorRefId)))
  }

  function NormalizeEvidence(e: Evidence): Result<Evidence> {
    var payloadDigest :- Hex64(e.payloadDigest);
    var payeeDid :- Nonblank(e.payeeDid);
    var preset :- Token(e.completionPresetId);
    var artifacts :- OptHex(e.artifactsDigest);
    var payeeSignature :- OptHex(e.payeeSignatureDigest);
    Ok(Evidence(preset, payloadDigest, artifacts, e.predicatePassed, payeeDid, payeeSignature))
  }

  function NormalizePayment(p: Payment): Result<Payment> {
    var intentId :- Uuid(p.intentId);
    var rail :- Token(p.settlementRail);
    var fundingMethod :- OptToken(p.fundingMethod);
    var receiptDigest :- OptHex(p.fundingReceiptDigest);
    Ok(Payment(intentId, rail, fundingMethod, OptStrip(p.fundingReference), receiptDigest))
  }

  predicate IsReservationOutcome(s: string) {
    s == "consumed" || s == "released" || s == "pending" || s == "none"
  }

  predicate IsSettlementOutcome(s: string) {
    s == "SETTLED" || s == "PENDING_FINALITY" || s == "REVERSED" || s == "FAILED"
  }

  function OptReservation(o: Option<string>): Result<Option<string>> {
    if Falsy(o) then Ok(None)
    else if IsReservationOutcome(StripLower(o.value)) then Ok(Some(StripLower(o.value)))
    else Err(Malformed)
  }

  function NormalizeOutcome(o: Outcome, scope: string): Result<Outcome> {
    var harborState :- Token(o.harborState);
    var reservation :- OptReservation(o.spendReservation);
    var settlement := OptStripLenient(o.settlementOutcome);
    :- Require(settlement.None? || (IsSettlementOutcome(settlement.value) && scope == "intent_terminal"), Malformed);
    Ok(Outcome(harborState, reservation, o.predicatePassed, settlement))
  }

  function NormalizeSettlementId(o: Option<string>): Result<Option<string>> {
    if Falsy(o) then Ok(o)
    else
      var trimmed := StripLower(o.value);
      if trimmed == "" then Ok(None)
      else if IsUuid(trimmed) || IsHex64(trimmed) then Ok(Some(trimmed))
      else Err(Malformed)
  }

  function NormalizeReferences(r: References): Result<References> {
    var ledgerSeq := r.ledgerSeq;
    :- Require(ledgerSeq >= 0, OutOfRange);
    var intentId :- Uuid(r.intentId);
    var settlementId :- NormalizeSettlementId(r.settlementReceiptId);
    Ok(References(intentId, ledgerSeq, settlementId))
  }

  function NormalizeAttestation(a: Attestation): Result<Attestation> {
    var digest :- Hex64(a.digest);
    var kind :- Nonblank(a.kind);
    var source :- Token(a.source);
    Ok(Attestation(source, kind, digest, OptStrip(a.referenceId)))
  }

  function NormalizeAttestations(s: seq<Attestation>): (r: Result<seq<Attestation>>)
    ensures r.Ok? ==> |r.value| == |s|
  {
    if s == [] then Ok([])
    else
      var first :- NormalizeAttestation(s[0]);
      var rest :- NormalizeAttestations(s[1..]);
      Ok([first] + rest)
  }

  function OptText(o: Option<string>): string {
    if o.None? then "" else o.value
  }

  /** The first mandate attestation with this digest. */
  function MatchingAttestation(digest: string, s: seq<Attestation>): Option<Attestation> {
    if s == [] then None
    else if Strip(s[0].kind) == MANDATE_ATTESTATION_KIND && StripLower(s[0].digest) == digest then Some(s[0])
    else MatchingAttestation(digest, s[1..])
  }

  /** `_verify_mandate_authorization_consistency` */
  predicate MandateConsistent(a: Authorization, s: seq<Attestation>) {
    var digest, reference := StripLower(OptText(a.mandateDigest)), Strip(OptText(a.mandateReferenceId));
    || (digest == "" && reference == "")
    || (&& IsHex64(digest)
        && var matched := MatchingAttestation(digest, s);
           matched.Some? && (reference == "" || reference == Strip(OptText(matched.value.referenceId))))
  }

  function NormalizeContinuity(c: Continuity, execution: Option<Execution>): Result<Continuity> {
    var runId :- Uuid(c.runId);
    :- Require(c.sequenceNumber >= 1, OutOfRange);
    var prev := StripLower(OptText(c.prevDigest));
    :- Require(if c.sequenceNumber == 1 then prev == "" else IsHex64(prev), Malformed);
    :- Require(execution.None? || StripLower(execution.value.runId) == runId, Mismatch);
    Ok(Continuity(if prev == "" then None else Some(prev), c.sequenceNumber, runId))
  }

  function NormalizeOperator(o: OperatorAttestation): Result<OperatorAttestation> {
    var operatorDid :- Nonblank(o.operatorDid);
    var digest :- Hex64(o.messageDigestHex);
    var publicKey :- Hex64(o.publicKeyHex);
    :- Require(|StripLower(o.signatureHex)| == 128, Malformed);
    Ok(OperatorAttestation(operatorDid, publicKey, digest, StripLower(o.signatureHex)))
  }

  // ----- The whole receipt

  function OrDefault(s: string, fallback: string): string {
    if s == "" then fallback else s
  }

  function Envelope(calendar: Calendar, r: Receipt): Result<Receipt> {
    var supported := r.schemaVersion == 0 || r.schemaVersion == 1;
    :- Require(supported, Unsupported);
    :- Require(OrDefault(Strip(r.kind), RECEIPT_KIND) == RECEIPT_KIND, Unsupported);
    :- Require(OrDefault(Strip(r.receiptVersion), RECEIPT_VERSION) == RECEIPT_VERSION, Unsupported);
    :- Require(StripLower(r.scope) == "action" || StripLower(r.scope) == "intent_terminal", Malformed);
    :- Require(StripLower(r.receiptId) != "", Missing);
    var tenantId :- Nonblank(r.tenantId);
    var issuedAt :- Stamp(calendar, r.issuedAt);
    Ok(r.(schemaVersion := 1, kind := RECEIPT_KIND, receiptVersion := RECEIPT_VERSION, scope := StripLower(r.scope),
          receiptId := StripLower(r.receiptId), tenantId := tenantId, issuedAt := issuedAt,
          signingAlgorithm := OrDefault(StripLower(r.signingAlgorithm), SIGNING_ALGORITHM),
          messageDigestHex := StripLower(r.messageDigestHex), publicKeyHex := StripLower(r.publicKeyHex),
          signatureHex := StripLower(r.signatureHex)))
  }

  function Core(calendar: Calendar, r: Receipt): Result<Receipt> {
    var authorization :- NormalizeAuthorization(calendar, r.authorization);
    var references :- NormalizeReferences(r.references);
    var attestations :- NormalizeAttestations(r.attestations);
    :- Require(MandateConsistent(authorization, attestations), Mismatch);
    var outcome :- NormalizeOutcome(r.outcome, r.scope);
    Ok(r.(authorization := authorization, references := references, attestations := attestations, outcome := outcome))
  }

  function OptExecution(calendar: Calendar, scope: string, o: Option<Execution>): Result<Option<Execution>> {
    if scope != "action" then Ok(None)
    else if o.None? then Err(Missing)
    else
      var e :- NormalizeExecution(calendar, o.value);
      Ok(Some(e))
  }

  function OptMerchant(o: Option<Merchant>): Result<Option<Merchant>> {
    if o.None? then Ok(None)
    else
      var m :- NormalizeMerchant(o.value);
      Ok(Some(m))
  }

  function OptEvidence(o: Option<Evidence>): Result<Option<Evidence>> {
    if o.None? then Ok(None)
    else
      var e :- NormalizeEvidence(o.value);
      Ok(Some(e))
  }

  function OptPayment(o: Option<Payment>): Result<Option<Payment>> {
    if o.None? then Ok(None)
    else
      var p :- NormalizePayment(o.value);
      Ok(Some(p))
  }

  function OptContinuity(o: Option<Continuity>, execution: Option<Execution>): Result<Option<Continuity>> {
    if o.None? then Ok(None)
    else
      var c :- NormalizeContinuity(o.value, execution);
      Ok(Some(c))
  }

  function OptOperator(o: Option<OperatorAttestation>): Result<Option<OperatorAttestation>> {
    if o.None? then Ok(None)
    else
      var a :- NormalizeOperator(o.value);
      Ok(Some(a))
  }

  function Parts(calendar: Calendar, r: Receipt): Result<Receipt> {
    var execution :- OptExecution(calendar, r.scope, r.execution);
    var merchant :- OptMerchant(r.merchant);
    var evidence :- OptEvidence(r.evidence);
    var payment :- OptPayment(r.payment);
    var continuity :- OptContinuity(r.continuity, execution);
    var operator :- OptOperator(r.operatorAttestation);
    Ok(r.(execution := execution, merchant := merchant, evidence := evidence, payment := payment,
          continuity := continuity, operatorAttestation := operator))
  }

  /** `action_receipt_id`: hash of intent and tool call separated by a NUL. */
  function ActionReceiptId(hash: Hash, intentId: string, toolCallId: string): string {
    Hex(hash(Utf8(intentId + ['\0'] + toolCallId)))
  }

  /** `_verify_receipt_id` on a normalised receipt. */
  predicate ReceiptIdMatches(hash: Hash, r: Receipt) {
    if r.scope == "action" then
      r.execution.Some? && r.receiptId == ActionReceiptId(hash, r.references.intentId, r.execution.value.toolCallId)
    else r.receiptId == r.references.intentId && IsUuid(StripLower(r.receiptId))
  }

  function Normalize(hash: Hash, calendar: Calendar, r: Receipt): Result<Receipt> {
    var envelope :- Envelope(calendar, r);
    var core :- Core(calendar, envelope);
    var normalized :- Parts(calendar, core);
    :- Require(ReceiptIdMatches(hash, normalized), Mismatch);
    Ok(normalized)
  }
}
