/**
  The signing bytes of a receipt determine everything that is printed: two receipts have equal bytes exactly when
  they agree up to falsy optional fields and the fields outside the bytes.
 */
module ReceiptUnambiguous {
  import opened Basics
  import opened Json
  import opened JsonReader
  import opened Receipt
  import opened ReceiptFixpoint
  import opened ReceiptBytes

  // ----- What is printed of a receipt

  function ShownInt(o: Option<int>): Option<int> {
    if o == Some(0) then None else o
  }

  function ShownAgent(a: Agent): Agent {
    a.(modelInstanceId := Settle(a.modelInstanceId), deploymentEpoch := ShownInt(a.deploymentEpoch))
  }

  function ShownPolicy(p: Policy): Policy {
    p.(versionSeq := ShownInt(p.versionSeq), spendPolicyVersion := ShownInt(p.spendPolicyVersion))
  }

  function ShownAuthorization(a: Authorization): Authorization {
    a.(agent := ShownAgent(a.agent), policy := ShownPolicy(a.policy), auditId := Settle(a.auditId),
       mandateDigest := Settle(a.mandateDigest), mandateReferenceId := Settle(a.mandateReferenceId),
       zkPolicyProof := Settle(a.zkPolicyProof))
  }

  function ShownExecution(e: Execution): Execution {
    e.(resultDigest := Settle(e.resultDigest), durationMs := ShownInt(e.durationMs),
       teeAttestation := Settle(e.teeAttestation))
  }

  function ShownMerchant(m: Merchant): Merchant {
    m.(vendorId := Settle(m.vendorId), vendorRefId := Settle(m.vendorRefId))
  }

  function ShownEvidence(e: Evidence): Evidence {
    e.(artifactsDigest := Settle(e.artifactsDigest), payeeSignatureDigest := Settle(e.payeeSignatureDigest))
  }

  function ShownPayment(p: Payment): Payment {
    p.(fundingMethod := Settle(p.fundingMethod), fundingReference := Settle(p.fundingReference),
       fundingReceiptDigest := Settle(p.fundingReceiptDigest))
  }

  function ShownOutcome(o: Outcome): Outcome {
    o.(spendReservation := Settle(o.spendReservation), settlementOutcome := Settle(o.settlementOutcome))
  }

  function ShownContinuity(c: Continuity): Continuity {
    c.(prevDigest := Settle(c.prevDigest))
  }

  function Each<T>(f: T -> T, o: Option<T>): Option<T> {
    if o.None? then None else Some(f(o.value))
  }

  /** The receipt without empty optionals, counter-signature, algorithm, digest, key and signature. */
  function Shown(r: Receipt): Receipt {
    r.(authorization := ShownAuthorization(r.authorization), execution := Each(ShownExecution, r.execution),
       merchant := Each(ShownMerchant, r.merchant), evidence := Each(ShownEvidence, r.evidence),
       payment := Each(ShownPayment, r.payment), outcome := ShownOutcome(r.outcome),
       continuity := Each(ShownContinuity, r.continuity), operatorAttestation := None,
       signingAlgorithm := "", messageDigestHex := "", publicKeyHex := "", signatureHex := "")
  }

  // ----- Taking printed fields off the end

  /** At most one field, under this key. */
  predicate Keyed(f: Fields, k: string) {
    |f| <= 1 && (f != [] ==> f[0].0 == k)
  }

  predicate EndsOther(f: Fields, k: string) {
    f == [] || f[|f| - 1].0 != k
  }

  lemma EndsOtherPlus(f: Fields, g: Fields, k: string)
    requires EndsOther(f, k) && EndsOther(g, k)
    ensures EndsOther(f + g, k)
  {
    assert g == [] ==> f + g == f;
  }

  lemma KeyedEnds(f: Fields, j: string, k: string)
    requires Keyed(f, j) && j != k
    ensures EndsOther(f, k)
  {
  }

  /** An optional field comes off the end when nothing before it ends in its key. */
  lemma PeelOpt(r: Fields, f: Fields, s: Fields, g: Fields, k: string)
    requires r + f == s + g && Keyed(f, k) && Keyed(g, k) && EndsOther(r, k) && EndsOther(s, k)
    ensures f == g && r == s
  {
    var x, y := r + f, s + g;
    assert |x| == |r| + |f| && |y| == |s| + |g|;
    assert f == [] ==> x == r;
    assert g == [] ==> y == s;
    assert f != [] ==> x[|x| - 1] == f[0];
    assert g != [] ==> y[|y| - 1] == g[0];
    if |f| == |g| {
      PeelFixed(r, f, s, g);
    }
  }

  lemma PeelFixed(r: Fields, f: Fields, s: Fields, g: Fields)
    requires r + f == s + g && |f| == |g|
    ensures f == g && r == s
  {
    assert r == (r + f)[..|r|] && s == (s + g)[..|s|];
    CancelPrefix(r, f, g);
  }

  lemma OptStrShows(k: string, o: Option<string>, p: Option<string>)
    ensures Keyed(OptStr(k, o), k) && Keyed(OptStr(k, p), k)
    ensures OptStr(k, o) == OptStr(k, p) <==> Settle(o) == Settle(p)
  {
    assert OptStr(k, o) != [] && OptStr(k, o) == OptStr(k, p) ==> OptStr(k, o)[0] == OptStr(k, p)[0];
  }

  lemma OptIntShows(k: string, o: Option<int>, p: Option<int>)
    ensures Keyed(OptInt(k, o), k) && Keyed(OptInt(k, p), k)
    ensures OptInt(k, o) == OptInt(k, p) <==> ShownInt(o) == ShownInt(p)
  {
    assert OptInt(k, o) != [] && OptInt(k, o) == OptInt(k, p) ==> OptInt(k, o)[0] == OptInt(k, p)[0];
  }

  lemma OptBoolShows(k: string, o: Option<bool>, p: Option<bool>)
    ensures Keyed(OptBool(k, o), k) && Keyed(OptBool(k, p), k)
    ensures OptBool(k, o) == OptBool(k, p) <==> o == p
  {
    assert OptBool(k, o) != [] && OptBool(k, o) == OptBool(k, p) ==> OptBool(k, o)[0] == OptBool(k, p)[0];
  }

  lemma OptStringsShows(k: string, s: seq<string>, t: seq<string>)
    ensures Keyed(OptStrings(k, s), k) && Keyed(OptStrings(k, t), k)
    ensures OptStrings(k, s) == OptStrings(k, t) <==> s == t
  {
    if OptStrings(k, s) == OptStrings(k, t) && s != [] {
      assert OptStrings(k, s)[0] == OptStrings(k, t)[0];
      StringsInjective(s, t);
    }
  }

  /** Two optional fields at the end, in the order given. */
  lemma PeelTwo(r: Fields, f: Fields, f': Fields, s: Fields, g: Fields, g': Fields, j: string, k: string)
    requires r + f + f' == s + g + g' && j != k
    requires Keyed(f, j) && Keyed(g, j) && Keyed(f', k) && Keyed(g', k)
    requires EndsOther(r, j) && EndsOther(s, j) && EndsOther(r, k) && EndsOther(s, k)
    ensures f == g && f' == g' && r == s
  {
    hide EndsOther;
    KeyedEnds(f, j, k);
    KeyedEnds(g, j, k);
    EndsOtherPlus(r, f, k);
    EndsOtherPlus(s, g, k);
    PeelOpt(r + f, f', s + g, g', k);
    PeelOpt(r, f, s, g, j);
  }

  /** A fixed segment, an optional field, another fixed segment and an optional field: the shape of most sections. */
  lemma PeelSandwich(r: Fields, f: Fields, m: Fields, f': Fields, s: Fields, g: Fields, n: Fields, g': Fields,
                     j: string, k: string)
    requires r + f + m + f' == s + g + n + g' && |m| == |n| > 0
    requires Keyed(f, j) && Keyed(g, j) && Keyed(f', k) && Keyed(g', k)
    requires EndsOther(r, j) && EndsOther(s, j) && EndsOther(m, k) && EndsOther(n, k)
    ensures r == s && f == g && m == n && f' == g'
  {
    assert (r + f + m)[|r + f + m| - 1] == m[|m| - 1] && (s + g + n)[|s + g + n| - 1] == n[|n| - 1];
    PeelOpt(r + f + m, f', s + g + n, g', k);
    PeelFixed(r + f, m, s + g, n);
    PeelOpt(r, f, s, g, j);
  }

  // ----- Section by section

  lemma AgentShows(a: Agent, b: Agent)
    ensures AgentJson(a) == AgentJson(b) <==> ShownAgent(a) == ShownAgent(b)
  {
    hide OptStr, OptInt, Settle, ShownInt;
    OptStrShows("model_instance_id", a.modelInstanceId, b.modelInstanceId);
    OptIntShows("deployment_epoch", a.deploymentEpoch, b.deploymentEpoch);
    if AgentJson(a) == AgentJson(b) {
      assert |"prompt_hash_sha256_hex"| != |"deployment_epoch"| && |"model_family"| != |"model_instance_id"|;
      PeelSandwich(AgentNames(a), OptStr("model_instance_id", a.modelInstanceId), AgentHashes(a),
                   OptInt("deployment_epoch", a.deploymentEpoch),
                   AgentNames(b), OptStr("model_instance_id", b.modelInstanceId), AgentHashes(b),
                   OptInt("deployment_epoch", b.deploymentEpoch), "model_instance_id", "deployment_epoch");
      assert AgentNames(a)[0] == AgentNames(b)[0] && AgentNames(a)[1] == AgentNames(b)[1];
      assert AgentHashes(a)[0] == AgentHashes(b)[0] && AgentHashes(a)[1] == AgentHashes(b)[1];
    }
  }

  lemma PolicyShows(a: Policy, b: Policy)
    ensures PolicyJson(a) == PolicyJson(b) <==> ShownPolicy(a) == ShownPolicy(b)
  {
    hide OptInt, ShownInt;
    OptIntShows("version_seq", a.versionSeq, b.versionSeq);
    OptIntShows("spend_policy_version", a.spendPolicyVersion, b.spendPolicyVersion);
    if PolicyJson(a) == PolicyJson(b) {
      var r, s := [("template_id", Str(a.templateId))], [("template_id", Str(b.templateId))];
      var m, n := [("content_digest_sha256_hex", Str(a.contentDigest))],
        [("content_digest_sha256_hex", Str(b.contentDigest))];
      assert |"content_digest_sha256_hex"| != |"spend_policy_version"|;
      assert "template_id"[0] != "version_seq"[0];
      PeelSandwich(r, OptInt("version_seq", a.versionSeq), m, OptInt("spend_policy_version", a.spendPolicyVersion),
                   s, OptInt("version_seq", b.versionSeq), n, OptInt("spend_policy_version", b.spendPolicyVersion),
                   "version_seq", "spend_policy_version");
      assert r[0] == s[0] && m[0] == n[0];
    }
  }

  lemma MerchantShows(a: Merchant, b: Merchant)
    ensures MerchantJson(a) == MerchantJson(b) <==> ShownMerchant(a) == ShownMerchant(b)
  {
    hide OptStr, Settle;
    OptStrShows("vendor_id", a.vendorId, b.vendorId);
    OptStrShows("vendor_ref_id", a.vendorRefId, b.vendorRefId);
    if MerchantJson(a) == MerchantJson(b) {
      var r, s := [("payee_did", Str(a.payeeDid))], [("payee_did", Str(b.payeeDid))];
      assert "payee_did"[0] != "vendor_id"[0] && "payee_did"[0] != "vendor_ref_id"[0];
      assert |"vendor_id"| != |"vendor_ref_id"|;
      PeelTwo(r, OptStr("vendor_id", a.vendorId), OptStr("vendor_ref_id", a.vendorRefId),
              s, OptStr("vendor_id", b.vendorId), OptStr("vendor_ref_id", b.vendorRefId), "vendor_id", "vendor_ref_id");
      assert r[0] == s[0];
    }
  }

  lemma EvidenceShows(a: Evidence, b: Evidence)
    ensures EvidenceJson(a) == EvidenceJson(b) <==> ShownEvidence(a) == ShownEvidence(b)
  {
    hide OptStr, Settle;
    var j, k := "artifacts_digest_sha256_hex", "payee_signature_digest_sha256_hex";
    OptStrShows(j, a.artifactsDigest, b.artifactsDigest);
    OptStrShows(k, a.payeeSignatureDigest, b.payeeSignatureDigest);
    if EvidenceJson(a) == EvidenceJson(b) {
      assert |"payload_digest_sha256_hex"| != |j| && |"payee_did"| != |k|;
      PeelSandwich(EvidencePayload(a), OptStr(j, a.artifactsDigest), EvidenceVerdict(a),
                   OptStr(k, a.payeeSignatureDigest),
                   EvidencePayload(b), OptStr(j, b.artifactsDigest), EvidenceVerdict(b),
                     OptStr(k, b.payeeSignatureDigest), j, k);
      assert EvidencePayload(a)[0] == EvidencePayload(b)[0] && EvidencePayload(a)[1] == EvidencePayload(b)[1];
      assert EvidenceVerdict(a)[0] == EvidenceVerdict(b)[0] && EvidenceVerdict(a)[1] == EvidenceVerdict(b)[1];
    }
  }

  lemma PaymentShows(a: Payment, b: Payment)
    ensures PaymentJson(a) == PaymentJson(b) <==> ShownPayment(a) == ShownPayment(b)
  {
    hide OptStr, Settle, Keyed, EndsOther;
    var i, j, k := "funding_method", "funding_reference", "funding_receipt_digest_sha256_hex";
    OptStrShows(i, a.fundingMethod, b.fundingMethod);
    OptStrShows(j, a.fundingReference, b.fundingReference);
    OptStrShows(k, a.fundingReceiptDigest, b.fundingReceiptDigest);
    if PaymentJson(a) == PaymentJson(b) {
      PaymentEnds(a);
      PaymentEnds(b);
      PeelThree(PaymentRail(a), OptStr(i, a.fundingMethod), OptStr(j, a.fundingReference),
                OptStr(k, a.fundingReceiptDigest),
                PaymentRail(b), OptStr(i, b.fundingMethod), OptStr(j, b.fundingReference),
                  OptStr(k, b.fundingReceiptDigest),
                i, j, k);
      assert PaymentRail(a)[0] == PaymentRail(b)[0] && PaymentRail(a)[1] == PaymentRail(b)[1];
    }
  }

  lemma PaymentEnds(p: Payment)
    ensures var i, j, k := "funding_method", "funding_reference", "funding_receipt_digest_sha256_hex";
            && i != j && i != k && j != k
            && EndsOther(PaymentRail(p), i) && EndsOther(PaymentRail(p), j) && EndsOther(PaymentRail(p), k)
  {
    var i, j, k := "funding_method", "funding_reference", "funding_receipt_digest_sha256_hex";
    assert |i| != |j| && |i| != |k| && |j| != |k|;
    assert "settlement_rail"[0] != i[0] && "settlement_rail"[0] != j[0] && "settlement_rail"[0] != k[0];
  }

  /** Three optional fields at the end. */
  lemma PeelThree(r: Fields, f: Fields, f': Fields, f'': Fields, s: Fields, g: Fields, g': Fields, g'': Fields,
                  i: string, j: string, k: string)
    requires r + f + f' + f'' == s + g + g' + g'' && i != j && i != k && j != k
    requires Keyed(f, i) && Keyed(g, i) && Keyed(f', j) && Keyed(g', j) && Keyed(f'', k) && Keyed(g'', k)
    requires EndsOther(r, i) && EndsOther(s, i) && EndsOther(r, j) && EndsOther(s, j) && EndsOther(r, k)
             && EndsOther(s, k)
    ensures r == s && f == g && f' == g' && f'' == g''
  {
    hide EndsOther, Keyed;
    KeyedEnds(f, i, k);
    KeyedEnds(g, i, k);
    KeyedEnds(f', j, k);
    KeyedEnds(g', j, k);
    EndsOtherPlus(r, f, k);
    EndsOtherPlus(s, g, k);
    EndsOtherPlus(r + f, f', k);
    EndsOtherPlus(s + g, g', k);
    PeelOpt(r + f + f', f'', s + g + g', g'', k);
    PeelTwo(r, f, f', s, g, g', i, j);
  }

  lemma OutcomeShows(a: Outcome, b: Outcome)
    ensures OutcomeJson(a) == OutcomeJson(b) <==> ShownOutcome(a) == ShownOutcome(b)
  {
    hide OptStr, OptBool, Settle, Keyed, EndsOther;
    var i, j, k := "spend_reservation_outcome", "predicate_passed", "settlement_outcome";
    OptStrShows(i, a.spendReservation, b.spendReservation);
    OptBoolShows(j, a.predicatePassed, b.predicatePassed);
    OptStrShows(k, a.settlementOutcome, b.settlementOutcome);
    if OutcomeJson(a) == OutcomeJson(b) {
      var r, s := [("harbor_state", Str(a.harborState))], [("harbor_state", Str(b.harborState))];
      OutcomeEnds(r);
      OutcomeEnds(s);
      PeelThree(r, OptStr(i, a.spendReservation), OptBool(j, a.predicatePassed), OptStr(k, a.settlementOutcome),
                s, OptStr(i, b.spendReservation), OptBool(j, b.predicatePassed), OptStr(k, b.settlementOutcome), i,
                  j, k);
      assert r[0] == s[0];
    }
  }

  lemma OutcomeEnds(f: Fields)
    requires |f| == 1 && f[0].0 == "harbor_state"
    ensures var i, j, k := "spend_reservation_outcome", "predicate_passed", "settlement_outcome";
            && i != j && i != k && j != k && EndsOther(f, i) && EndsOther(f, j) && EndsOther(f, k)
  {
    var i, j, k := "spend_reservation_outcome", "predicate_passed", "settlement_outcome";
    assert |i| != |j| && |i| != |k| && |j| != |k|;
    assert "harbor_state"[0] != i[0] && "harbor_state"[0] != j[0] && "harbor_state"[0] != k[0];
  }

  lemma ReferencesShow(a: References, b: References)
    ensures ReferencesJson(a) == ReferencesJson(b) <==> a == b
  {
    hide OptInt;
    var k := "ledger_seq";
    OptIntShows(k, Some(a.ledgerSeq), Some(b.ledgerSeq));
    if ReferencesJson(a) == ReferencesJson(b) {
      var r, s := [("intent_id", Str(a.intentId))], [("intent_id", Str(b.intentId))];
      var f, g := OptInt(k, Some(a.ledgerSeq)), OptInt(k, Some(b.ledgerSeq));
      var m, n := [("settlement_receipt_id", SettlementId(a.settlementReceiptId))],
                  [("settlement_receipt_id", SettlementId(b.settlementReceiptId))];
      assert "intent_id"[0] != k[0];
      PeelFixed(r + f, m, s + g, n);
      PeelOpt(r, f, s, g, k);
      assert r[0] == s[0] && m[0] == n[0];
    }
  }

  lemma ExecutionShows(a: Execution, b: Execution)
    ensures ExecutionJson(a) == ExecutionJson(b) <==> ShownExecution(a) == ShownExecution(b)
  {
    hide OptStr, OptInt, Settle, ShownInt, Keyed, EndsOther;
    var i, j, k := "result_digest_sha256_hex", "duration_ms", "tee_attestation_digest_sha256_hex";
    OptStrShows(i, a.resultDigest, b.resultDigest);
    OptIntShows(j, a.durationMs, b.durationMs);
    OptStrShows(k, a.teeAttestation, b.teeAttestation);
    if ExecutionJson(a) == ExecutionJson(b) {
      hide ExecutionCall, ExecutionSpan;
      ExecutionEnds(a);
      ExecutionEnds(b);
      PeelTwo(ExecutionCall(a) + OptStr(i, a.resultDigest) + ExecutionSpan(a), OptInt(j, a.durationMs),
              OptStr(k, a.teeAttestation),
              ExecutionCall(b) + OptStr(i, b.resultDigest) + ExecutionSpan(b), OptInt(j, b.durationMs),
                OptStr(k, b.teeAttestation),
              j, k);
      PeelFixed(ExecutionCall(a) + OptStr(i, a.resultDigest), ExecutionSpan(a),
                ExecutionCall(b) + OptStr(i, b.resultDigest), ExecutionSpan(b));
      PeelOpt(ExecutionCall(a), OptStr(i, a.resultDigest), ExecutionCall(b), OptStr(i, b.resultDigest), i);
      SameCall(a, b);
    }
  }

  lemma SameCall(a: Execution, b: Execution)
    requires ExecutionCall(a) == ExecutionCall(b) && ExecutionSpan(a) == ExecutionSpan(b)
    ensures a.runId == b.runId && a.toolCallId == b.toolCallId && a.toolName == b.toolName && a.operation == b.operation
    ensures a.argumentsDigest == b.argumentsDigest && a.outcome == b.outcome
    ensures a.startedAt == b.startedAt && a.completedAt == b.completedAt
  {
    var f, g := ExecutionCall(a), ExecutionCall(b);
    assert f[0] == g[0] && f[1] == g[1] && f[2] == g[2] && f[3] == g[3] && f[4] == g[4];
    var m, n := ExecutionSpan(a), ExecutionSpan(b);
    assert m[0] == n[0] && m[1] == n[1] && m[2] == n[2];
  }

  lemma ExecutionEnds(e: Execution)
    ensures var i, j, k := "result_digest_sha256_hex", "duration_ms", "tee_attestation_digest_sha256_hex";
            var r := ExecutionCall(e) + OptStr(i, e.resultDigest) + ExecutionSpan(e);
            && j != k && EndsOther(ExecutionCall(e), i) && EndsOther(r, j) && EndsOther(r, k)
  {
    hide OptStr, ExecutionCall, ExecutionSpan;
    var i, j, k := "result_digest_sha256_hex", "duration_ms", "tee_attestation_digest_sha256_hex";
    assert |j| != |k| && |"arguments_digest_sha256_hex"| != |i| && "completed_at"[0] != j[0] && |"completed_at"| != |k|;
    var r := ExecutionCall(e) + OptStr(i, e.resultDigest) + ExecutionSpan(e);
    assert r[|r| - 1] == ExecutionSpan(e)[2];
  }

  lemma AuthorizationShows(a: Authorization, b: Authorization)
    ensures AuthorizationJson(a) == AuthorizationJson(b) <==> ShownAuthorization(a) == ShownAuthorization(b)
  {
    hide OptStr, OptStrings, Settle, Keyed, EndsOther, AgentJson, PolicyJson, ShownAgent, ShownPolicy;
    var h, i, j, k := "reason_codes", "mandate_digest_sha256_hex", "mandate_reference_id",
      "zk_policy_proof_digest_sha256_hex";
    OptStrShows("audit_id", a.auditId, b.auditId);
    OptStringsShows(h, a.reasonCodes, b.reasonCodes);
    OptStrShows(i, a.mandateDigest, b.mandateDigest);
    OptStrShows(j, a.mandateReferenceId, b.mandateReferenceId);
    OptStrShows(k, a.zkPolicyProof, b.zkPolicyProof);
    SameParts(a, b);
    if AuthorizationJson(a) == AuthorizationJson(b) {
      hide AuthorizationParts, AuthorizationTerms;
      AuthorizationEnds(a);
      AuthorizationEnds(b);
      var p, q := AuthorizationParts(a) + OptStr("audit_id", a.auditId) + AuthorizationTerms(a),
                  AuthorizationParts(b) + OptStr("audit_id", b.auditId) + AuthorizationTerms(b);
      PeelThree(p + OptStrings(h, a.reasonCodes), OptStr(i, a.mandateDigest), OptStr(j, a.mandateReferenceId),
                OptStr(k, a.zkPolicyProof),
                q + OptStrings(h, b.reasonCodes), OptStr(i, b.mandateDigest), OptStr(j, b.mandateReferenceId),
                  OptStr(k, b.zkPolicyProof),
                i, j, k);
      PeelOpt(p, OptStrings(h, a.reasonCodes), q, OptStrings(h, b.reasonCodes), h);
      PeelFixed(AuthorizationParts(a) + OptStr("audit_id", a.auditId), AuthorizationTerms(a),
                AuthorizationParts(b) + OptStr("audit_id", b.auditId), AuthorizationTerms(b));
      PeelOpt(AuthorizationParts(a), OptStr("audit_id", a.auditId), AuthorizationParts(b),
              OptStr("audit_id", b.auditId), "audit_id");
    }
  }

  /** The fixed segments of an authorization show the same exactly when their fields do. */
  lemma SameParts(a: Authorization, b: Authorization)
    ensures AuthorizationParts(a) == AuthorizationParts(b) <==>
            && a.principalDid == b.principalDid && a.actorSubject == b.actorSubject
            && ShownAgent(a.agent) == ShownAgent(b.agent) && a.decisionId == b.decisionId
    ensures AuthorizationTerms(a) == AuthorizationTerms(b) <==>
            && ShownPolicy(a.policy) == ShownPolicy(b.policy) && a.authorizedAt == b.authorizedAt
            && a.requestedSpendCents == b.requestedSpendCents && a.currency == b.currency
  {
    hide AgentJson, PolicyJson, ShownAgent, ShownPolicy;
    AgentShows(a.agent, b.agent);
    PolicyShows(a.policy, b.policy);
    var f, g := AuthorizationParts(a), AuthorizationParts(b);
    assert f == g ==> f[0] == g[0] && f[1] == g[1] && f[2] == g[2] && f[3] == g[3];
    var m, n := AuthorizationTerms(a), AuthorizationTerms(b);
    assert m == n ==> m[0] == n[0] && m[1] == n[1] && m[2] == n[2] && m[3] == n[3];
  }

  lemma AuthorizationEnds(a: Authorization)
    ensures var h, i, j, k := "reason_codes", "mandate_digest_sha256_hex", "mandate_reference_id",
            "zk_policy_proof_digest_sha256_hex";
            var p := AuthorizationParts(a) + OptStr("audit_id", a.auditId) + AuthorizationTerms(a);
            var q := p + OptStrings(h, a.reasonCodes);
            && i != j && i != k && j != k && EndsOther(AuthorizationParts(a), "audit_id") && EndsOther(p, h)
            && EndsOther(q, i) && EndsOther(q, j) && EndsOther(q, k)
  {
    hide OptStr, AuthorizationParts, AuthorizationTerms;
    var h, i, j, k := "reason_codes", "mandate_digest_sha256_hex", "mandate_reference_id",
      "zk_policy_proof_digest_sha256_hex";
    assert |i| != |j| && |i| != |k| && |j| != |k| && |h| != |i| && |h| != |j| && |h| != |k|;
    assert |"currency"| != |h| && |"currency"| != |i| && |"currency"| != |j| && |"currency"| != |k|;
    assert |"decision_id"| != |"audit_id"|;
    var p := AuthorizationParts(a) + OptStr("audit_id", a.auditId) + AuthorizationTerms(a);
    assert p[|p| - 1] == AuthorizationTerms(a)[3];
    OptStringsShows(h, a.reasonCodes, a.reasonCodes);
    EndsOtherPlus(p, OptStrings(h, a.reasonCodes), i);
    EndsOtherPlus(p, OptStrings(h, a.reasonCodes), j);
    EndsOtherPlus(p, OptStrings(h, a.reasonCodes), k);
  }

  lemma AttestationJsonInjective(a: Attestation, b: Attestation)
    requires AttestationJson(a) == AttestationJson(b)
    ensures a == b
  {
    var f, g := AttestationJson(a).fields, AttestationJson(b).fields;
    assert |f| == (if a.referenceId.None? then 3 else 4) && |g| == (if b.referenceId.None? then 3 else 4);
    assert f[0] == g[0] && f[1] == g[1] && f[2] == g[2];
    assert a.referenceId.Some? ==> f[3] == g[3];
  }

  lemma AttestationsJsonInjective(s: seq<Attestation>, t: seq<Attestation>)
    requires AttestationsJson(s) == AttestationsJson(t)
    ensures s == t
  {
    hide AttestationJson;
    if s != [] {
      assert |s| == |AttestationsJson(s).items| == |t|;
      forall i | 0 <= i < |s| ensures s[i] == t[i] {
        assert AttestationsJson(s).items[i] == AttestationsJson(t).items[i];
        AttestationJsonInjective(s[i], t[i]);
      }
    }
  }

  lemma ContinuityShows(a: Continuity, b: Continuity)
    ensures ContinuityJson(a) == ContinuityJson(b) <==> ShownContinuity(a) == ShownContinuity(b)
  {
    hide OptStr, Settle;
    var k := "prev_message_digest_sha256_hex";
    OptStrShows(k, a.prevDigest, b.prevDigest);
    if ContinuityJson(a) == ContinuityJson(b) {
      var m, n := [("sequence_number", Int(a.sequenceNumber)), ("run_id", Str(a.runId))],
                  [("sequence_number", Int(b.sequenceNumber)), ("run_id", Str(b.runId))];
      PeelFixed(OptStr(k, a.prevDigest), m, OptStr(k, b.prevDigest), n);
      assert m[0] == n[0] && m[1] == n[1];
    }
  }

  // ----- The whole receipt

  lemma SectionsShow(a: Receipt, b: Receipt)
    ensures ExecutionField(a.execution) == ExecutionField(b.execution)
            <==> Each(ShownExecution, a.execution) == Each(ShownExecution, b.execution)
    ensures MerchantField(a.merchant) == MerchantField(b.merchant)
            <==> Each(ShownMerchant, a.merchant) == Each(ShownMerchant, b.merchant)
    ensures EvidenceField(a.evidence) == EvidenceField(b.evidence)
            <==> Each(ShownEvidence, a.evidence) == Each(ShownEvidence, b.evidence)
    ensures PaymentField(a.payment) == PaymentField(b.payment)
            <==> Each(ShownPayment, a.payment) == Each(ShownPayment, b.payment)
    ensures ContinuityFields(a.continuity) == ContinuityFields(b.continuity)
            <==> Each(ShownContinuity, a.continuity) == Each(ShownContinuity, b.continuity)
  {
    ExecutionFieldShows(a.execution, b.execution);
    MerchantFieldShows(a.merchant, b.merchant);
    EvidenceFieldShows(a.evidence, b.evidence);
    PaymentFieldShows(a.payment, b.payment);
    ContinuityFieldShows(a.continuity, b.continuity);
    hide ExecutionField, MerchantField, EvidenceField, PaymentField, ContinuityFields, Each;
  }

  lemma ExecutionFieldShows(o: Option<Execution>, p: Option<Execution>)
    ensures ExecutionField(o) == ExecutionField(p) <==> Each(ShownExecution, o) == Each(ShownExecution, p)
    ensures Keyed(ExecutionField(o), "execution")
  {
    hide ExecutionJson, ShownExecution;
    if o.Some? && p.Some? {
      ExecutionShows(o.value, p.value);
      assert ExecutionField(o) == ExecutionField(p) ==> ExecutionField(o)[0] == ExecutionField(p)[0];
    }
  }

  lemma MerchantFieldShows(o: Option<Merchant>, p: Option<Merchant>)
    ensures MerchantField(o) == MerchantField(p) <==> Each(ShownMerchant, o) == Each(ShownMerchant, p)
    ensures Keyed(MerchantField(o), "merchant")
  {
    hide MerchantJson, ShownMerchant;
    if o.Some? && p.Some? {
      MerchantShows(o.value, p.value);
      assert MerchantField(o) == MerchantField(p) ==> MerchantField(o)[0] == MerchantField(p)[0];
    }
  }

  lemma EvidenceFieldShows(o: Option<Evidence>, p: Option<Evidence>)
    ensures EvidenceField(o) == EvidenceField(p) <==> Each(ShownEvidence, o) == Each(ShownEvidence, p)
    ensures Keyed(EvidenceField(o), "evidence")
  {
    hide EvidenceJson, ShownEvidence;
    if o.Some? && p.Some? {
      EvidenceShows(o.value, p.value);
      assert EvidenceField(o) == EvidenceField(p) ==> EvidenceField(o)[0] == EvidenceField(p)[0];
    }
  }

  lemma PaymentFieldShows(o: Option<Payment>, p: Option<Payment>)
    ensures PaymentField(o) == PaymentField(p) <==> Each(ShownPayment, o) == Each(ShownPayment, p)
    ensures Keyed(PaymentField(o), "payment")
  {
    hide PaymentJson, ShownPayment;
    if o.Some? && p.Some? {
      PaymentShows(o.value, p.value);
      assert PaymentField(o) == PaymentField(p) ==> PaymentField(o)[0] == PaymentField(p)[0];
    }
  }

  lemma ContinuityFieldShows(o: Option<Continuity>, p: Option<Continuity>)
    ensures ContinuityFields(o) == ContinuityFields(p) <==> Each(ShownContinuity, o) == Each(ShownContinuity, p)
    ensures Keyed(ContinuityFields(o), "continuity")
  {
    hide ContinuityJson, ShownContinuity;
    if o.Some? && p.Some? {
      ContinuityShows(o.value, p.value);
      assert ContinuityFields(o) == ContinuityFields(p) ==> ContinuityFields(o)[0] == ContinuityFields(p)[0];
    }
  }

  lemma EnvelopeShows(a: Receipt, b: Receipt)
    ensures EnvelopeFields(a) == EnvelopeFields(b) <==>
            && a.schemaVersion == b.schemaVersion && a.kind == b.kind && a.receiptVersion == b.receiptVersion
            && a.scope == b.scope && a.receiptId == b.receiptId && a.issuedAt == b.issuedAt && a.tenantId == b.tenantId
            && ShownAuthorization(a.authorization) == ShownAuthorization(b.authorization)
    ensures ResultFields(a) == ResultFields(b) <==>
            ShownOutcome(a.outcome) == ShownOutcome(b.outcome) && a.references == b.references
  {
    hide AuthorizationJson, ShownAuthorization, OutcomeJson, ShownOutcome, ReferencesJson;
    AuthorizationShows(a.authorization, b.authorization);
    OutcomeShows(a.outcome, b.outcome);
    ReferencesShow(a.references, b.references);
    var f, g := EnvelopeFields(a), EnvelopeFields(b);
    assert f == g ==> f[0] == g[0] && f[1] == g[1] && f[2] == g[2] && f[3] == g[3];
    assert f == g ==> f[4] == g[4] && f[5] == g[5] && f[6] == g[6] && f[7] == g[7];
    var m, n := ResultFields(a), ResultFields(b);
    assert m == n ==> m[0] == n[0] && m[1] == n[1];
  }

  /** The segments before the attestations are determined one by one. */
  lemma HeadSegments(a: Receipt, b: Receipt)
    ensures HeadFields(a) == HeadFields(b) <==>
            && EnvelopeFields(a) == EnvelopeFields(b) && ExecutionField(a.execution) == ExecutionField(b.execution)
            && MerchantField(a.merchant) == MerchantField(b.merchant)
               && EvidenceField(a.evidence) == EvidenceField(b.evidence)
            && PaymentField(a.payment) == PaymentField(b.payment) && ResultFields(a) == ResultFields(b)
  {
    hide EnvelopeFields, ExecutionField, MerchantField, EvidenceField, PaymentField, ResultFields, Keyed, EndsOther;
    if HeadFields(a) == HeadFields(b) {
      HeadKeys(a);
      HeadKeys(b);
      EndsOtherPlus(EnvelopeFields(a), ExecutionField(a.execution), "merchant");
      EndsOtherPlus(EnvelopeFields(a), ExecutionField(a.execution), "evidence");
      EndsOtherPlus(EnvelopeFields(a), ExecutionField(a.execution), "payment");
      EndsOtherPlus(EnvelopeFields(b), ExecutionField(b.execution), "merchant");
      EndsOtherPlus(EnvelopeFields(b), ExecutionField(b.execution), "evidence");
      EndsOtherPlus(EnvelopeFields(b), ExecutionField(b.execution), "payment");
      PeelHead(EnvelopeFields(a) + ExecutionField(a.execution), MerchantField(a.merchant), EvidenceField(a.evidence),
               PaymentField(a.payment), ResultFields(a),
               EnvelopeFields(b) + ExecutionField(b.execution), MerchantField(b.merchant), EvidenceField(b.evidence),
               PaymentField(b.payment), ResultFields(b));
      PeelOpt(EnvelopeFields(a), ExecutionField(a.execution), EnvelopeFields(b), ExecutionField(b.execution),
              "execution");
    }
  }

  lemma PeelHead(r: Fields, f: Fields, f': Fields, f'': Fields, m: Fields, s: Fields, g: Fields, g': Fields,
                 g'': Fields, n: Fields)
    requires r + f + f' + f'' + m == s + g + g' + g'' + n && |m| == |n|
    requires Keyed(f, "merchant") && Keyed(g, "merchant") && Keyed(f', "evidence") && Keyed(g', "evidence")
    requires Keyed(f'', "payment") && Keyed(g'', "payment")
    requires EndsOther(r, "merchant") && EndsOther(r, "evidence") && EndsOther(r, "payment")
    requires EndsOther(s, "merchant") && EndsOther(s, "evidence") && EndsOther(s, "payment")
    ensures r == s && f == g && f' == g' && f'' == g'' && m == n
  {
    hide Keyed, EndsOther;
    var i, j, k := "merchant", "evidence", "payment";
    assert i[0] != j[0] && i[0] != k[0] && j[0] != k[0];
    PeelFixed(r + f + f' + f'', m, s + g + g' + g'', n);
    PeelThree(r, f, f', f'', s, g, g', g'', i, j, k);
  }

  lemma HeadKeys(r: Receipt)
    ensures Keyed(ExecutionField(r.execution), "execution") && Keyed(MerchantField(r.merchant), "merchant")
    ensures Keyed(EvidenceField(r.evidence), "evidence") && Keyed(PaymentField(r.payment), "payment")
    ensures EndsOther(EnvelopeFields(r), "execution") && EndsOther(EnvelopeFields(r), "merchant")
    ensures EndsOther(EnvelopeFields(r), "evidence") && EndsOther(EnvelopeFields(r), "payment")
    ensures EndsOther(ExecutionField(r.execution), "merchant") && EndsOther(ExecutionField(r.execution), "evidence")
    ensures EndsOther(ExecutionField(r.execution), "payment")
  {
    hide ExecutionJson, MerchantJson, EvidenceJson, PaymentJson, EnvelopeFields;
    assert "authorization"[0] != "execution"[0] && "authorization"[0] != "merchant"[0];
    assert "authorization"[0] != "evidence"[0] && "authorization"[0] != "payment"[0];
    assert |"execution"| != |"merchant"| && |"execution"| != |"evidence"| && |"execution"| != |"payment"|;
  }

  lemma TailSegments(a: Receipt, b: Receipt)
    ensures ReceiptJson(a) == ReceiptJson(b) <==>
            && HeadFields(a) == HeadFields(b) && a.attestations == b.attestations
            && ContinuityFields(a.continuity) == ContinuityFields(b.continuity)
  {
    hide HeadFields, AttestationsJson, ContinuityFields, Keyed, EndsOther;
    if ReceiptJson(a) == ReceiptJson(b) {
      var x, y := [("external_attestations", AttestationsJson(a.attestations))],
                  [("external_attestations", AttestationsJson(b.attestations))];
      var c, d := ContinuityFields(a.continuity), ContinuityFields(b.continuity);
      Assoc(HeadFields(a), x, c);
      Assoc(HeadFields(b), y, d);
      ContinuityFieldShows(a.continuity, b.continuity);
      ContinuityFieldShows(b.continuity, a.continuity);
      AttestationsEnd(HeadFields(a), x);
      AttestationsEnd(HeadFields(b), y);
      PeelOpt(HeadFields(a) + x, c, HeadFields(b) + y, d, "continuity");
      PeelFixed(HeadFields(a), x, HeadFields(b), y);
      assert x[0] == y[0];
      AttestationsJsonInjective(a.attestations, b.attestations);
    }
  }

  lemma AttestationsEnd(f: Fields, x: Fields)
    requires |x| == 1 && x[0].0 == "external_attestations"
    ensures EndsOther(f + x, "continuity")
  {
    assert |"external_attestations"| != |"continuity"|;
    assert (f + x)[|f + x| - 1] == x[0];
  }

  /** Two receipts have equal signing bytes exactly when the same is shown of both. */
  lemma BytesUnambiguous(a: Receipt, b: Receipt)
    ensures CanonicalBytes(a) == CanonicalBytes(b) <==> Shown(a) == Shown(b)
  {
    JsonUnambiguous(a, b);
    hide ReceiptJson, Shown;
    if CanonicalBytes(a) == CanonicalBytes(b) {
      Utf8JsonInjective(ReceiptJson(a), ReceiptJson(b));
    }
  }

  lemma JsonUnambiguous(a: Receipt, b: Receipt)
    ensures ReceiptJson(a) == ReceiptJson(b) <==> Shown(a) == Shown(b)
  {
    hide ReceiptJson, HeadFields, EnvelopeFields, ExecutionField, MerchantField, EvidenceField, PaymentField,
      ResultFields;
    hide ContinuityFields, ShownAuthorization, ShownExecution, ShownMerchant, ShownEvidence, ShownPayment, ShownOutcome;
    hide ShownContinuity, Each;
    TailSegments(a, b);
    HeadSegments(a, b);
    EnvelopeShows(a, b);
    SectionsShow(a, b);
  }

  /** Receipts with equal signing bytes carry the same continuity link, or both carry none. */
  lemma BytesBindContinuity(a: Receipt, b: Receipt)
    requires a.continuity.Some? ==> a.continuity.value.prevDigest != Some("")
    requires b.continuity.Some? ==> b.continuity.value.prevDigest != Some("")
    requires CanonicalBytes(a) == CanonicalBytes(b)
    ensures a.continuity == b.continuity
  {
    BytesUnambiguous(a, b);
    hide CanonicalBytes, ShownAuthorization, ShownExecution, ShownMerchant, ShownEvidence, ShownPayment, ShownOutcome;
    assert Shown(a).continuity == Shown(b).continuity;
  }

  /** Counter-signature, algorithm, digest, key and signature lie outside the signing bytes. */
  lemma OutsideBytes(r: Receipt, s: Receipt)
    requires s == r.(operatorAttestation := s.operatorAttestation, signingAlgorithm := s.signingAlgorithm,
                     messageDigestHex := s.messageDigestHex, publicKeyHex := s.publicKeyHex,
                       signatureHex := s.signatureHex)
    ensures CanonicalBytes(s) == CanonicalBytes(r)
  {
    hide CanonicalBytes, ShownAuthorization, ShownExecution, ShownMerchant, ShownEvidence, ShownPayment, ShownOutcome;
    hide ShownContinuity;
    BytesUnambiguous(r, s);
  }
}
