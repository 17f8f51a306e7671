/**
  Canonical signing bytes of a receipt (`_marshal_canonical_agent_receipt`), and exactly when they are a
  fixed point of normalisation.
 */
module ReceiptBytes {
  import opened Basics
  import opened Text
  import opened Time
  import opened Json
  import opened JsonReader
  import opened Receipt
  import opened ReceiptFixpoint

  type Fields = seq<(string, Json)>

  // ----- Printing

  /** An optional string is printed unless it is falsy. */
  function OptStr(key: string, o: Option<string>): Fields {
    if Falsy(o) then [] else [(key, Str(o.value))]
  }

  /** An optional integer is printed unless it is missing or zero. */
  function OptInt(key: string, o: Option<int>): Fields {
    if o.None? || o.value == 0 then [] else [(key, Int(o.value))]
  }

  function OptBool(key: string, o: Option<bool>): Fields {
    if o.None? then [] else [(key, Bool(o.value))]
  }

  function OptStrings(key: string, s: seq<string>): Fields {
    if s == [] then [] else [(key, Strings(s))]
  }

  // Fields between two optional ones are one segment: its length and its last key are fixed.

  function AgentNames(a: Agent): (f: Fields)
    ensures |f| == 2 && f[1].0 == "model_family"
  {
    [("operator_did", Str(a.operatorDid)), ("model_family", Str(a.modelFamily))]
  }

  function AgentHashes(a: Agent): (f: Fields)
    ensures |f| == 2 && f[1].0 == "prompt_hash_sha256_hex"
  {
    [("config_hash_sha256_hex", Str(a.configHash)), ("prompt_hash_sha256_hex", Str(a.promptHash))]
  }

  function AgentJson(a: Agent): Json {
    Obj(AgentNames(a) + OptStr("model_instance_id", a.modelInstanceId) + AgentHashes(a)
        + OptInt("deployment_epoch", a.deploymentEpoch))
  }

  function PolicyJson(p: Policy): Json {
    Obj([("template_id", Str(p.templateId))] + OptInt("version_seq", p.versionSeq)
        + [("content_digest_sha256_hex", Str(p.contentDigest))] + OptInt("spend_policy_version", p.spendPolicyVersion))
  }

  function AuthorizationParts(a: Authorization): (f: Fields)
    ensures |f| == 4 && f[3].0 == "decision_id"
  {
    [("principal_did", Str(a.principalDid)), ("actor_subject", Str(a.actorSubject)), ("agent", AgentJson(a.agent)),
     ("decision_id", Str(a.decisionId))]
  }

  function AuthorizationTerms(a: Authorization): (f: Fields)
    ensures |f| == 4 && f[3].0 == "currency"
  {
    [("policy", PolicyJson(a.policy)), ("authorized_at", Str(a.authorizedAt)),
     ("requested_spend_cents", Int(a.requestedSpendCents)), ("currency", Str(a.currency))]
  }

  function AuthorizationJson(a: Authorization): Json {
    Obj(AuthorizationParts(a) + OptStr("audit_id", a.auditId) + AuthorizationTerms(a)
        + OptStrings("reason_codes", a.reasonCodes)
        + OptStr("mandate_digest_sha256_hex", a.mandateDigest)
        + OptStr("mandate_reference_id", a.mandateReferenceId)
        + OptStr("zk_policy_proof_digest_sha256_hex", a.zkPolicyProof))
  }

  function ExecutionCall(e: Execution): (f: Fields)
    ensures |f| == 5 && f[4].0 == "arguments_digest_sha256_hex"
  {
    [("run_id", Str(e.runId)), ("tool_call_id", Str(e.toolCallId)), ("tool_name", Str(e.toolName)),
     ("operation", Str(e.operation)), ("arguments_digest_sha256_hex", Str(e.argumentsDigest))]
  }

  function ExecutionSpan(e: Execution): (f: Fields)
    ensures |f| == 3 && f[2].0 == "completed_at"
  {
    [("outcome", Str(e.outcome)), ("started_at", Str(e.startedAt)), ("completed_at", Str(e.completedAt))]
  }

  function ExecutionJson(e: Execution): Json {
    Obj(ExecutionCall(e) + OptStr("result_digest_sha256_hex", e.resultDigest) + ExecutionSpan(e)
        + OptInt("duration_ms", e.durationMs)
        + OptStr("tee_attestation_digest_sha256_hex", e.teeAttestation))
  }

  function MerchantJson(m: Merchant): Json {
    Obj([("payee_did", Str(m.payeeDid))] + OptStr("vendor_id", m.vendorId) + OptStr("vendor_ref_id", m.vendorRefId))
  }

  function EvidencePayload(e: Evidence): (f: Fields)
    ensures |f| == 2 && f[1].0 == "payload_digest_sha256_hex"
  {
    [("completion_preset_id", Str(e.completionPresetId)), ("payload_digest_sha256_hex", Str(e.payloadDigest))]
  }

  function EvidenceVerdict(e: Evidence): (f: Fields)
    ensures |f| == 2 && f[1].0 == "payee_did"
  {
    [("predicate_passed", Bool(e.predicatePassed)), ("payee_did", Str(e.payeeDid))]
  }

  function EvidenceJson(e: Evidence): Json {
    Obj(EvidencePayload(e) + OptStr("artifacts_digest_sha256_hex", e.artifactsDigest) + EvidenceVerdict(e)
        + OptStr("payee_signature_digest_sha256_hex", e.payeeSignatureDigest))
  }

  function PaymentRail(p: Payment): (f: Fields)
    ensures |f| == 2 && f[1].0 == "settlement_rail"
  {
    [("intent_id", Str(p.intentId)), ("settlement_rail", Str(p.settlementRail))]
  }

  function PaymentJson(p: Payment): Json {
    Obj(PaymentRail(p) + OptStr("funding_method", p.fundingMethod) + OptStr("funding_reference", p.fundingReference)
        + OptStr("funding_receipt_digest_sha256_hex", p.fundingReceiptDigest))
  }

  function OutcomeJson(o: Outcome): Json {
    Obj([("harbor_state", Str(o.harborState))] + OptStr("spend_reservation_outcome", o.spendReservation)
        + OptBool("predicate_passed", o.predicatePassed) + OptStr("settlement_outcome", o.settlementOutcome))
  }

  function SettlementId(o: Option<string>): Json {
    if o.None? then Null else Str(o.value)
  }

  function ReferencesJson(r: References): Json {
    Obj([("intent_id", Str(r.intentId))] + OptInt("ledger_seq", Some(r.ledgerSeq))
        + [("settlement_receipt_id", SettlementId(r.settlementReceiptId))])
  }

  /** Attestations are printed as they are: a reference that was trimmed to nothing still shows. */
  function AttestationJson(a: Attestation): Json {
    Obj([("source", Str(a.source)), ("kind", Str(a.kind)), ("digest_sha256_hex", Str(a.digest))]
        + (if a.referenceId.None? then [] else [("reference_id", Str(a.referenceId.value))]))
  }

  function AttestationsJson(s: seq<Attestation>): Json {
    if s == [] then Null else Arr(seq(|s|, i requires 0 <= i < |s| => AttestationJson(s[i])))
  }

  function ContinuityJson(c: Continuity): Json {
    Obj(OptStr("prev_message_digest_sha256_hex", c.prevDigest)
        + [("sequence_number", Int(c.sequenceNumber)), ("run_id", Str(c.runId))])
  }

  function EnvelopeFields(r: Receipt): (f: Fields)
    ensures |f| == 8 && f[7].0 == "authorization"
  {
    [("schema_version", Int(r.schemaVersion)), ("kind", Str(r.kind)), ("receipt_version", Str(r.receiptVersion)),
     ("scope", Str(r.scope)), ("receipt_id", Str(r.receiptId)), ("issued_at", Str(r.issuedAt)),
     ("tenant_id", Str(r.tenantId)), ("authorization", AuthorizationJson(r.authorization))]
  }

  function ExecutionField(o: Option<Execution>): Fields {
    if o.None? then [] else [("execution", ExecutionJson(o.value))]
  }

  function MerchantField(o: Option<Merchant>): Fields {
    if o.None? then [] else [("merchant", MerchantJson(o.value))]
  }

  function EvidenceField(o: Option<Evidence>): Fields {
    if o.None? then [] else [("evidence", EvidenceJson(o.value))]
  }

  function PaymentField(o: Option<Payment>): Fields {
    if o.None? then [] else [("payment", PaymentJson(o.value))]
  }

  function ResultFields(r: Receipt): (f: Fields)
    ensures |f| == 2
  {
    [("outcome", OutcomeJson(r.outcome)), ("references", ReferencesJson(r.references))]
  }

  /** Everything printed before the attestations. */
  function HeadFields(r: Receipt): Fields {
    EnvelopeFields(r) + ExecutionField(r.execution) + MerchantField(r.merchant) + EvidenceField(r.evidence)
    + PaymentField(r.payment) + ResultFields(r)
  }

  function ContinuityFields(o: Option<Continuity>): Fields {
    if o.None? then [] else [("continuity", ContinuityJson(o.value))]
  }

  function ReceiptJson(r: Receipt): Json {
    Obj(HeadFields(r) + ([("external_attestations", AttestationsJson(r.attestations))]
                         + ContinuityFields(r.continuity)))
  }

  function CanonicalBytes(r: Receipt): Bytes {
    Utf8Json(ReceiptJson(r))
  }

  // ----- Settling shows in the bytes exactly when an attestation reference was blank

  lemma HeadSettled(r: Receipt)
    ensures HeadFields(SettleReceipt(r)) == HeadFields(r)
  {
    hide ExecutionJson, EvidenceJson, OutcomeJson, ReferencesJson, PolicyJson, Strings;
    AgentSettled(r.authorization.agent);
    MerchantSettled(r.merchant);
    PaymentSettled(r.payment);
    assert AuthorizationJson(SettleReceipt(r).authorization) == AuthorizationJson(r.authorization) by {
      AuthorizationSettled(r.authorization);
    }
    hide AuthorizationJson, MerchantJson, PaymentJson;
  }

  lemma AgentSettled(a: Agent)
    ensures AgentJson(SettleAgent(a)) == AgentJson(a)
  {
  }

  lemma AuthorizationSettled(a: Authorization)
    ensures AuthorizationJson(SettleAuthorization(a)) == AuthorizationJson(a)
  {
    hide AgentJson, PolicyJson, Strings, OptStr;
    AgentSettled(a.agent);
  }

  lemma MerchantSettled(o: Option<Merchant>)
    ensures o.Some? ==> SettleMerchant(o).Some? && MerchantJson(SettleMerchant(o).value) == MerchantJson(o.value)
  {
  }

  lemma PaymentSettled(o: Option<Payment>)
    ensures o.Some? ==> SettlePayment(o).Some? && PaymentJson(SettlePayment(o).value) == PaymentJson(o.value)
  {
  }

  predicate KeepsReferences(s: seq<Attestation>) {
    forall i | 0 <= i < |s| :: s[i].referenceId != Some("")
  }

  lemma {:induction false} SettledAt(s: seq<Attestation>, i: nat)
    requires i < |s|
    ensures SettleAttestations(s)[i] == SettleAttestation(s[i])
  {
    ConsParts(SettleAttestation(s[0]), SettleAttestations(s[1..]));
    if i > 0 {
      SettledAt(s[1..], i - 1);
      assert SettleAttestations(s)[i] == SettleAttestations(s[1..])[i - 1];
    }
  }

  lemma SettledFixed(s: seq<Attestation>)
    requires KeepsReferences(s)
    ensures SettleAttestations(s) == s
  {
    forall i | 0 <= i < |s| ensures SettleAttestations(s)[i] == s[i] {
      SettledAt(s, i);
    }
  }

  lemma AttestationShows(a: Attestation)
    requires AttestationJson(a) == AttestationJson(SettleAttestation(a))
    ensures a.referenceId != Some("")
  {
    assert |AttestationJson(a).fields| == if a.referenceId.None? then 3 else 4;
    assert |AttestationJson(SettleAttestation(a)).fields| == if Falsy(a.referenceId) then 3 else 4;
  }

  lemma AttestationsShow(s: seq<Attestation>)
    ensures AttestationsJson(s) == AttestationsJson(SettleAttestations(s)) <==> KeepsReferences(s)
  {
    hide AttestationJson;
    if KeepsReferences(s) {
      SettledFixed(s);
    }
    if AttestationsJson(s) == AttestationsJson(SettleAttestations(s)) && s != [] {
      forall i | 0 <= i < |s| ensures s[i].referenceId != Some("") {
        SettledAt(s, i);
        assert AttestationsJson(s).items[i] == AttestationsJson(SettleAttestations(s)).items[i];
        AttestationShows(s[i]);
      }
    }
  }

  lemma ReceiptJsonSettled(r: Receipt)
    ensures ReceiptJson(SettleReceipt(r)) == ReceiptJson(r) <==> KeepsReferences(r.attestations)
  {
    hide HeadFields, AttestationsJson, ContinuityFields, SettleAttestations;
    HeadSettled(r);
    AttestationsShow(r.attestations);
    var h, rest := HeadFields(r), ContinuityFields(r.continuity);
    var x := [("external_attestations", AttestationsJson(r.attestations))] + rest;
    var y := [("external_attestations", AttestationsJson(SettleAttestations(r.attestations)))] + rest;
    if h + x == h + y {
      CancelPrefix(h, x, y);
      assert x[0] == y[0];
    }
  }

  /** A reference that is present and not empty, but all whitespace. */
  predicate BlankReference(a: Attestation) {
    a.referenceId.Some? && a.referenceId.value != "" && Strip(a.referenceId.value) == ""
  }

  predicate NoBlankReference(r: Receipt) {
    forall i | 0 <= i < |r.attestations| :: !BlankReference(r.attestations[i])
  }

  lemma {:induction false} AttestationsKeepReferences(s: seq<Attestation>)
    requires NormalizeAttestations(s).Ok?
    ensures KeepsReferences(NormalizeAttestations(s).value) <==> forall i | 0 <= i < |s| :: !BlankReference(s[i])
  {
    hide Strip;
    if s != [] {
      var first, rest := NormalizeAttestation(s[0]).value, NormalizeAttestations(s[1..]).value;
      AttestationsKeepReferences(s[1..]);
      OneKeepsReference(s[0]);
      KeepsCons(first, rest);
      BlankCons(s);
    }
  }

  lemma OneKeepsReference(a: Attestation)
    requires NormalizeAttestation(a).Ok?
    ensures NormalizeAttestation(a).value.referenceId != Some("") <==> !BlankReference(a)
  {
    hide Strip, Hex64, Nonblank, Token;
  }

  lemma KeepsCons(first: Attestation, rest: seq<Attestation>)
    ensures KeepsReferences([first] + rest) <==> first.referenceId != Some("") && KeepsReferences(rest)
  {
    var s := [first] + rest;
    if KeepsReferences(s) {
      assert s[0] == first;
      forall i | 0 <= i < |rest| ensures rest[i].referenceId != Some("") {
        assert rest[i] == s[i + 1];
      }
    }
  }

  lemma BlankCons(s: seq<Attestation>)
    requires s != []
    ensures (forall i | 0 <= i < |s| :: !BlankReference(s[i]))
            <==> !BlankReference(s[0]) && forall i | 0 <= i < |s[1..]| :: !BlankReference(s[1..][i])
  {
    hide BlankReference;
    if !BlankReference(s[0]) && forall i | 0 <= i < |s[1..]| :: !BlankReference(s[1..][i]) {
      forall i | 0 <= i < |s| ensures !BlankReference(s[i]) {
        if i > 0 {
          assert s[i] == s[1..][i - 1];
        }
      }
    }
    if forall i | 0 <= i < |s| :: !BlankReference(s[i]) {
      forall i | 0 <= i < |s[1..]| ensures !BlankReference(s[1..][i]) {
        assert s[1..][i] == s[i + 1];
      }
    }
  }

  lemma NormalizedAttestations(hash: Hash, calendar: Calendar, r: Receipt)
    requires Normalize(hash, calendar, r).Ok?
    ensures NormalizeAttestations(r.attestations) == Ok(Normalize(hash, calendar, r).value.attestations)
  {
    hide Envelope, Core, Parts, ReceiptIdMatches, NormalizeAttestations;
    var envelope := Envelope(calendar, r).value;
    EnvelopeKeepsAttestations(calendar, r);
    CoreAttestations(calendar, envelope);
    PassesKeepRest(calendar, Core(calendar, envelope).value);
  }

  lemma CoreAttestations(calendar: Calendar, r: Receipt)
    requires Core(calendar, r).Ok?
    ensures NormalizeAttestations(r.attestations) == Ok(Core(calendar, r).value.attestations)
  {
    hide NormalizeAttestations, MandateConsistent, NormalizeAuthorization, NormalizeReferences, NormalizeOutcome;
  }

  lemma EnvelopeKeepsAttestations(calendar: Calendar, r: Receipt)
    requires Envelope(calendar, r).Ok?
    ensures Envelope(calendar, r).value.attestations == r.attestations
    ensures Envelope(calendar, r).value.continuity == r.continuity
  {
    hide Strip, StripLower, Nonblank, Stamp, RECEIPT_KIND, RECEIPT_VERSION, SIGNING_ALGORITHM;
  }

  /**
    A second normalisation succeeds if and only if every timestamp of the original receipt prints back, and it keeps
    the signing bytes if and only if, besides, no attestation reference is a nonempty run of whitespace.
   */
  lemma BytesFixedExactly(hash: Hash, calendar: Calendar, r: Receipt)
    requires calendar.Faithful() && Normalize(hash, calendar, r).Ok?
    ensures var once := Normalize(hash, calendar, r).value;
            var twice := Normalize(hash, calendar, once);
            && (twice.Ok? <==> StampsPrintBack(calendar, r))
            && (twice.Ok? ==> twice == Ok(SettleReceipt(once)))
            && (twice.Ok? && CanonicalBytes(twice.value) == CanonicalBytes(once)
                <==> StampsPrintBack(calendar, r) && NoBlankReference(r))
  {
    hide Normalize, CanonicalBytes, SettleReceipt, NoBlankReference, StampsPrintBack;
    NormalizesAgainExactly(hash, calendar, r);
    SettledBytes(hash, calendar, r);
  }

  lemma SettledBytes(hash: Hash, calendar: Calendar, r: Receipt)
    requires Normalize(hash, calendar, r).Ok?
    ensures var once := Normalize(hash, calendar, r).value;
            CanonicalBytes(SettleReceipt(once)) == CanonicalBytes(once) <==> NoBlankReference(r)
  {
    hide Normalize, ReceiptJson, SettleReceipt, BlankReference, KeepsReferences, NormalizeAttestations;
    var once := Normalize(hash, calendar, r).value;
    NormalizedAttestations(hash, calendar, r);
    AttestationsKeepReferences(r.attestations);
    ReceiptJsonSettled(once);
    if CanonicalBytes(SettleReceipt(once)) == CanonicalBytes(once) {
      Utf8JsonInjective(ReceiptJson(SettleReceipt(once)), ReceiptJson(once));
    }
  }
}
