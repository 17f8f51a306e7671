/**
  What a JSON reader finds in the signed bytes of a receipt: every member under its name, in order, with the optional
  ones left out exactly where they are empty.
 */
module ReceiptWire {
  import opened Basics
  import opened Json
  import opened JsonReader
  import opened Receipt
  import opened ReceiptBytes

  /** A member that may be left out. */
  type Slot = (string, Option<Json>)

  /** The members that are there. */
  function Present(slots: seq<Slot>): seq<(string, Json)> {
    if slots == [] then []
    else (if slots[0].1.None? then [] else [(slots[0].0, slots[0].1.value)]) + Present(slots[1..])
  }

  function Text(s: string): Option<Json> {
    Some(Str(s))
  }

  function Number(n: int): Option<Json> {
    Some(Int(n))
  }

  /** Left out when missing or empty. */
  function MaybeText(o: Option<string>): Option<Json> {
    match o
    case None => None
    case Some(s) => if |s| == 0 then None else Some(Str(s))
  }

  /** Left out when missing or zero. */
  function MaybeNumber(o: Option<int>): Option<Json> {
    match o
    case None => None
    case Some(n) => if n == 0 then None else Some(Int(n))
  }

  // ----- The members of every section

  function AgentSlots(a: Agent): seq<Slot> {
    [("operator_did", Text(a.operatorDid)), ("model_family", Text(a.modelFamily)),
     ("model_instance_id", MaybeText(a.modelInstanceId)), ("config_hash_sha256_hex", Text(a.configHash)),
     ("prompt_hash_sha256_hex", Text(a.promptHash)), ("deployment_epoch", MaybeNumber(a.deploymentEpoch))]
  }

  function PolicySlots(p: Policy): seq<Slot> {
    [("template_id", Text(p.templateId)), ("version_seq", MaybeNumber(p.versionSeq)),
     ("content_digest_sha256_hex", Text(p.contentDigest)), ("spend_policy_version", MaybeNumber(p.spendPolicyVersion))]
  }

  function AuthorizationSlots(a: Authorization): seq<Slot> {
    [("principal_did", Text(a.principalDid)), ("actor_subject", Text(a.actorSubject)),
     ("agent", Some(Obj(Present(AgentSlots(a.agent))))), ("decision_id", Text(a.decisionId)),
     ("audit_id", MaybeText(a.auditId)), ("policy", Some(Obj(Present(PolicySlots(a.policy))))),
     ("authorized_at", Text(a.authorizedAt)), ("requested_spend_cents", Number(a.requestedSpendCents)),
     ("currency", Text(a.currency)),
     ("reason_codes", if |a.reasonCodes| == 0 then None else Some(Strings(a.reasonCodes))),
     ("mandate_digest_sha256_hex", MaybeText(a.mandateDigest)),
     ("mandate_reference_id", MaybeText(a.mandateReferenceId)),
     ("zk_policy_proof_digest_sha256_hex", MaybeText(a.zkPolicyProof))]
  }

  function ExecutionSlots(e: Execution): seq<Slot> {
    [("run_id", Text(e.runId)), ("tool_call_id", Text(e.toolCallId)), ("tool_name", Text(e.toolName)),
     ("operation", Text(e.operation)), ("arguments_digest_sha256_hex", Text(e.argumentsDigest)),
     ("result_digest_sha256_hex", MaybeText(e.resultDigest)), ("outcome", Text(e.outcome)),
     ("started_at", Text(e.startedAt)), ("completed_at", Text(e.completedAt)),
     ("duration_ms", MaybeNumber(e.durationMs)),
     ("tee_attestation_digest_sha256_hex", MaybeText(e.teeAttestation))]
  }

  function MerchantSlots(m: Merchant): seq<Slot> {
    [("payee_did", Text(m.payeeDid)), ("vendor_id", MaybeText(m.vendorId)), ("vendor_ref_id", MaybeText(m.vendorRefId))]
  }

  function EvidenceSlots(e: Evidence): seq<Slot> {
    [("completion_preset_id", Text(e.completionPresetId)), ("payload_digest_sha256_hex", Text(e.payloadDigest)),
     ("artifacts_digest_sha256_hex", MaybeText(e.artifactsDigest)), ("predicate_passed", Some(Bool(e.predicatePassed))),
     ("payee_did", Text(e.payeeDid)), ("payee_signature_digest_sha256_hex", MaybeText(e.payeeSignatureDigest))]
  }

  function PaymentSlots(p: Payment): seq<Slot> {
    [("intent_id", Text(p.intentId)), ("settlement_rail", Text(p.settlementRail)),
     ("funding_method", MaybeText(p.fundingMethod)), ("funding_reference", MaybeText(p.fundingReference)),
     ("funding_receipt_digest_sha256_hex", MaybeText(p.fundingReceiptDigest))]
  }

  function OutcomeSlots(o: Outcome): seq<Slot> {
    [("harbor_state", Text(o.harborState)), ("spend_reservation_outcome", MaybeText(o.spendReservation)),
     ("predicate_passed", if o.predicatePassed.None? then None else Some(Bool(o.predicatePassed.value))),
     ("settlement_outcome", MaybeText(o.settlementOutcome))]
  }

  function ReferencesSlots(r: References): seq<Slot> {
    [("intent_id", Text(r.intentId)), ("ledger_seq", MaybeNumber(Some(r.ledgerSeq))),
     ("settlement_receipt_id",
      Some(if r.settlementReceiptId.None? then Null else Str(r.settlementReceiptId.value)))]
  }

  function AttestationSlots(a: Attestation): seq<Slot> {
    [("source", Text(a.source)), ("kind", Text(a.kind)), ("digest_sha256_hex", Text(a.digest)),
     ("reference_id", if a.referenceId.None? then None else Some(Str(a.referenceId.value)))]
  }

  function ContinuitySlots(c: Continuity): seq<Slot> {
    [("prev_message_digest_sha256_hex", MaybeText(c.prevDigest)), ("sequence_number", Number(c.sequenceNumber)),
     ("run_id", Text(c.runId))]
  }

  function AttestationMember(a: Attestation): Json {
    Obj(Present(AttestationSlots(a)))
  }

  /** Null when there are none. */
  function AttestationsMember(s: seq<Attestation>): Json {
    if |s| == 0 then Null else Arr(seq(|s|, i requires 0 <= i < |s| => AttestationMember(s[i])))
  }

  /** A section that may be left out. */
  function Section<T>(slots: T -> seq<Slot>, o: Option<T>): Option<Json> {
    match o
    case None => None
    case Some(section) => Some(Obj(Present(slots(section))))
  }

  function ReceiptSlots(r: Receipt): seq<Slot> {
    [("schema_version", Number(r.schemaVersion)), ("kind", Text(r.kind)), ("receipt_version", Text(r.receiptVersion)),
     ("scope", Text(r.scope)), ("receipt_id", Text(r.receiptId)), ("issued_at", Text(r.issuedAt)),
     ("tenant_id", Text(r.tenantId)), ("authorization", Some(Obj(Present(AuthorizationSlots(r.authorization))))),
     ("execution", Section(ExecutionSlots, r.execution)),
     ("merchant", Section(MerchantSlots, r.merchant)),
     ("evidence", Section(EvidenceSlots, r.evidence)),
     ("payment", Section(PaymentSlots, r.payment)),
     ("outcome", Some(Obj(Present(OutcomeSlots(r.outcome))))),
     ("references", Some(Obj(Present(ReferencesSlots(r.references))))),
     ("external_attestations", Some(AttestationsMember(r.attestations))),
     ("continuity", Section(ContinuitySlots, r.continuity))]
  }

  // ----- The printer's segments are the members that are there

  lemma {:induction false} PresentAppend(a: seq<Slot>, b: seq<Slot>)
    ensures Present(a + b) == Present(a) + Present(b)
  {
    if a == [] {
      assert a + b == b;
    } else {
      assert (a + b)[1..] == a[1..] + b;
      PresentAppend(a[1..], b);
    }
  }

  /** Members that are all there, followed by one that may be missing. */
  lemma {:induction false} PresentAll(slots: seq<Slot>, f: Fields)
    requires |slots| == |f| && forall i | 0 <= i < |f| :: slots[i] == (f[i].0, Some(f[i].1))
    ensures Present(slots) == f
  {
    if slots != [] {
      PresentAll(slots[1..], f[1..]);
      HeadTail(f);
    }
  }

  lemma PresentFour(a: seq<Slot>, b: seq<Slot>, c: seq<Slot>, d: seq<Slot>)
    ensures Present(a + b + c + d) == Present(a) + Present(b) + Present(c) + Present(d)
  {
    hide Present;
    PresentAppend(a, b);
    PresentAppend(a + b, c);
    PresentAppend(a + b + c, d);
  }

  lemma TextSegment(key: string, o: Option<string>)
    ensures Present([(key, MaybeText(o))]) == OptStr(key, o)
  {
  }

  lemma NumberSegment(key: string, n: Option<int>)
    ensures Present([(key, MaybeNumber(n))]) == OptInt(key, n)
  {
  }

  lemma FlagSegment(key: string, b: Option<bool>)
    ensures Present([(key, if b.None? then None else Some(Bool(b.value)))]) == OptBool(key, b)
  {
  }

  lemma ListSegment(key: string, s: seq<string>)
    ensures Present([(key, if |s| == 0 then None else Some(Strings(s)))]) == OptStrings(key, s)
  {
    hide Strings;
  }

  lemma AgentMembers(a: Agent)
    ensures AgentJson(a) == Obj(Present(AgentSlots(a)))
  {
    hide Present, MaybeText, MaybeNumber, OptStr, OptInt;
    var s := AgentSlots(a);
    PresentAll(s[..2], AgentNames(a));
    TextSegment("model_instance_id", a.modelInstanceId);
    PresentAll(s[3..5], AgentHashes(a));
    NumberSegment("deployment_epoch", a.deploymentEpoch);
    PresentFour(s[..2], [s[2]], s[3..5], [s[5]]);
    assert s == s[..2] + [s[2]] + s[3..5] + [s[5]];
  }

  lemma PolicyMembers(p: Policy)
    ensures PolicyJson(p) == Obj(Present(PolicySlots(p)))
  {
    hide Present, MaybeText, MaybeNumber, OptStr, OptInt;
    var s := PolicySlots(p);
    PresentAll([s[0]], [("template_id", Str(p.templateId))]);
    NumberSegment("version_seq", p.versionSeq);
    PresentAll([s[2]], [("content_digest_sha256_hex", Str(p.contentDigest))]);
    NumberSegment("spend_policy_version", p.spendPolicyVersion);
    PresentFour([s[0]], [s[1]], [s[2]], [s[3]]);
    assert s == [s[0]] + [s[1]] + [s[2]] + [s[3]];
  }

  lemma AuthorizationMembers(a: Authorization)
    ensures AuthorizationJson(a) == Obj(Present(AuthorizationSlots(a)))
  {
    hide Present, MaybeText, OptStr, OptStrings, Strings, AgentSlots, PolicySlots, AgentJson, PolicyJson;
    AgentMembers(a.agent);
    PolicyMembers(a.policy);
    var s := AuthorizationSlots(a);
    PresentAll(s[..4], AuthorizationParts(a));
    TextSegment("audit_id", a.auditId);
    PresentAll(s[5..9], AuthorizationTerms(a));
    ListSegment("reason_codes", a.reasonCodes);
    PresentFour(s[..4], [s[4]], s[5..9], [s[9]]);
    TextSegment("mandate_digest_sha256_hex", a.mandateDigest);
    TextSegment("mandate_reference_id", a.mandateReferenceId);
    TextSegment("zk_policy_proof_digest_sha256_hex", a.zkPolicyProof);
    var front := s[..4] + [s[4]] + s[5..9] + [s[9]];
    PresentFour(front, [s[10]], [s[11]], [s[12]]);
    assert s == front + [s[10]] + [s[11]] + [s[12]];
  }

  lemma ExecutionMembers(e: Execution)
    ensures ExecutionJson(e) == Obj(Present(ExecutionSlots(e)))
  {
    hide Present, MaybeText, MaybeNumber, OptStr, OptInt;
    var s := ExecutionSlots(e);
    PresentAll(s[..5], ExecutionCall(e));
    TextSegment("result_digest_sha256_hex", e.resultDigest);
    PresentAll(s[6..9], ExecutionSpan(e));
    NumberSegment("duration_ms", e.durationMs);
    PresentFour(s[..5], [s[5]], s[6..9], [s[9]]);
    TextSegment("tee_attestation_digest_sha256_hex", e.teeAttestation);
    var front := s[..5] + [s[5]] + s[6..9] + [s[9]];
    PresentAppend(front, [s[10]]);
    assert s == front + [s[10]];
  }

  lemma PresentThree(a: seq<Slot>, b: seq<Slot>, c: seq<Slot>)
    ensures Present(a + b + c) == Present(a) + Present(b) + Present(c)
  {
    hide Present;
    PresentAppend(a, b);
    PresentAppend(a + b, c);
  }

  lemma MerchantMembers(m: Merchant)
    ensures MerchantJson(m) == Obj(Present(MerchantSlots(m)))
  {
    hide Present, MaybeText, OptStr;
    var s := MerchantSlots(m);
    PresentAll([s[0]], [("payee_did", Str(m.payeeDid))]);
    TextSegment("vendor_id", m.vendorId);
    TextSegment("vendor_ref_id", m.vendorRefId);
    PresentThree([s[0]], [s[1]], [s[2]]);
    assert s == [s[0]] + [s[1]] + [s[2]];
  }

  lemma EvidenceMembers(e: Evidence)
    ensures EvidenceJson(e) == Obj(Present(EvidenceSlots(e)))
  {
    hide Present, MaybeText, OptStr;
    var s := EvidenceSlots(e);
    PresentAll(s[..2], EvidencePayload(e));
    TextSegment("artifacts_digest_sha256_hex", e.artifactsDigest);
    PresentAll(s[3..5], EvidenceVerdict(e));
    TextSegment("payee_signature_digest_sha256_hex", e.payeeSignatureDigest);
    PresentFour(s[..2], [s[2]], s[3..5], [s[5]]);
    assert s == s[..2] + [s[2]] + s[3..5] + [s[5]];
  }

  lemma PaymentMembers(p: Payment)
    ensures PaymentJson(p) == Obj(Present(PaymentSlots(p)))
  {
    hide Present, MaybeText, OptStr;
    var s := PaymentSlots(p);
    PresentAll(s[..2], PaymentRail(p));
    TextSegment("funding_method", p.fundingMethod);
    TextSegment("funding_reference", p.fundingReference);
    TextSegment("funding_receipt_digest_sha256_hex", p.fundingReceiptDigest);
    PresentFour(s[..2], [s[2]], [s[3]], [s[4]]);
    assert s == s[..2] + [s[2]] + [s[3]] + [s[4]];
  }

  lemma OutcomeMembers(o: Outcome)
    ensures OutcomeJson(o) == Obj(Present(OutcomeSlots(o)))
  {
    hide Present, MaybeText, OptStr, OptBool;
    var s := OutcomeSlots(o);
    PresentAll([s[0]], [("harbor_state", Str(o.harborState))]);
    TextSegment("spend_reservation_outcome", o.spendReservation);
    FlagSegment("predicate_passed", o.predicatePassed);
    TextSegment("settlement_outcome", o.settlementOutcome);
    PresentFour([s[0]], [s[1]], [s[2]], [s[3]]);
    assert s == [s[0]] + [s[1]] + [s[2]] + [s[3]];
  }

  lemma ReferencesMembers(r: References)
    ensures ReferencesJson(r) == Obj(Present(ReferencesSlots(r)))
  {
    hide Present, MaybeNumber, OptInt;
    var s := ReferencesSlots(r);
    PresentAll([s[0]], [("intent_id", Str(r.intentId))]);
    NumberSegment("ledger_seq", Some(r.ledgerSeq));
    PresentAll([s[2]], [("settlement_receipt_id", SettlementId(r.settlementReceiptId))]);
    PresentThree([s[0]], [s[1]], [s[2]]);
    assert s == [s[0]] + [s[1]] + [s[2]];
  }

  lemma AttestationMembers(a: Attestation)
    ensures AttestationJson(a) == AttestationMember(a)
  {
    var s := AttestationSlots(a);
    PresentAll(s[..3], [("source", Str(a.source)), ("kind", Str(a.kind)), ("digest_sha256_hex", Str(a.digest))]);
    PresentAppend(s[..3], [s[3]]);
    assert s == s[..3] + [s[3]];
  }

  lemma AttestationsMembers(s: seq<Attestation>)
    ensures AttestationsJson(s) == AttestationsMember(s)
  {
    hide AttestationJson, AttestationMember;
    forall a ensures AttestationJson(a) == AttestationMember(a) {
      AttestationMembers(a);
    }
    assert s != [] ==> AttestationsJson(s).items == AttestationsMember(s).items;
  }

  lemma ContinuityMembers(c: Continuity)
    ensures ContinuityJson(c) == Obj(Present(ContinuitySlots(c)))
  {
    hide Present, MaybeText, OptStr;
    var s := ContinuitySlots(c);
    TextSegment("prev_message_digest_sha256_hex", c.prevDigest);
    PresentAll(s[1..], [("sequence_number", Int(c.sequenceNumber)), ("run_id", Str(c.runId))]);
    PresentAppend([s[0]], s[1..]);
    assert s == [s[0]] + s[1..];
  }

  lemma PresentOne(key: string, o: Option<Json>)
    ensures Present([(key, o)]) == if o.None? then [] else [(key, o.value)]
  {
  }

  lemma SectionFields(r: Receipt)
    ensures Present([("execution", Section(ExecutionSlots, r.execution))]) == ExecutionField(r.execution)
    ensures Present([("merchant", Section(MerchantSlots, r.merchant))]) == MerchantField(r.merchant)
    ensures Present([("evidence", Section(EvidenceSlots, r.evidence))]) == EvidenceField(r.evidence)
    ensures Present([("payment", Section(PaymentSlots, r.payment))]) == PaymentField(r.payment)
    ensures Present([("continuity", Section(ContinuitySlots, r.continuity))]) == ContinuityFields(r.continuity)
  {
    hide Present, ExecutionSlots, MerchantSlots, EvidenceSlots, PaymentSlots, ContinuitySlots;
    hide ExecutionJson, MerchantJson, EvidenceJson, PaymentJson, ContinuityJson;
    PresentOne("execution", Section(ExecutionSlots, r.execution));
    PresentOne("merchant", Section(MerchantSlots, r.merchant));
    PresentOne("evidence", Section(EvidenceSlots, r.evidence));
    PresentOne("payment", Section(PaymentSlots, r.payment));
    PresentOne("continuity", Section(ContinuitySlots, r.continuity));
    if r.execution.Some? {
      ExecutionMembers(r.execution.value);
    }
    if r.merchant.Some? {
      MerchantMembers(r.merchant.value);
    }
    if r.evidence.Some? {
      EvidenceMembers(r.evidence.value);
    }
    if r.payment.Some? {
      PaymentMembers(r.payment.value);
    }
    if r.continuity.Some? {
      ContinuityMembers(r.continuity.value);
    }
  }

  lemma ReceiptMembers(r: Receipt)
    ensures ReceiptJson(r) == Obj(Present(ReceiptSlots(r)))
  {
    hide Present, Section, AttestationsMember, AttestationsJson;
    hide AuthorizationSlots, OutcomeSlots, ReferencesSlots, AuthorizationJson, OutcomeJson, ReferencesJson;
    hide ExecutionField, MerchantField, EvidenceField, PaymentField, ContinuityFields;
    var s := ReceiptSlots(r);
    SectionFields(r);
    AuthorizationMembers(r.authorization);
    OutcomeMembers(r.outcome);
    ReferencesMembers(r.references);
    AttestationsMembers(r.attestations);
    PresentAll(s[..8], EnvelopeFields(r));
    PresentFour(s[..8], [s[8]], [s[9]], [s[10]]);
    PresentAll(s[12..14], ResultFields(r));
    var front := s[..8] + [s[8]] + [s[9]] + [s[10]];
    PresentThree(front, [s[11]], s[12..14]);
    PresentAll([s[14]], [("external_attestations", AttestationsJson(r.attestations))]);
    PresentAppend([s[14]], [s[15]]);
    PresentAppend(front + [s[11]] + s[12..14], [s[14]] + [s[15]]);
    assert s == front + [s[11]] + s[12..14] + ([s[14]] + [s[15]]);
  }

  /** A JSON reader finds exactly the present members of the receipt in its signed bytes. */
  lemma BytesRead(r: Receipt)
    ensures ReadBytes(CanonicalBytes(r)) == Some(Obj(Present(ReceiptSlots(r))))
  {
    hide ReceiptJson, ReceiptSlots, Present, ReadBytes, Utf8Json;
    ReceiptMembers(r);
    BytesAreJson(ReceiptJson(r));
  }
}
