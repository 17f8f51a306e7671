/**
  What a second normalisation does to a normalised receipt: it drops optional strings that the first
  pass trimmed to the empty string, and changes nothing else.
 */
module ReceiptFixpoint {
  import opened Basics
  import opened Text
  import opened Time
  import opened Ordering
  import opened Receipt

  // ----- The effect of a second pass

  function SettleAgent(a: Agent): Agent {
    a.(modelInstanceId := Settle(a.modelInstanceId))
  }

  function SettleAuthorization(a: Authorization): Authorization {
    a.(agent := SettleAgent(a.agent))
  }

  function SettleMerchant(o: Option<Merchant>): Option<Merchant> {
    if o.None? then None else Some(o.value.(vendorRefId := Settle(o.value.vendorRefId)))
  }

  function SettlePayment(o: Option<Payment>): Option<Payment> {
    if o.None? then None else Some(o.value.(fundingReference := Settle(o.value.fundingReference)))
  }

  function SettleAttestation(a: Attestation): Attestation {
    a.(referenceId := Settle(a.referenceId))
  }

  function SettleAttestations(s: seq<Attestation>): (r: seq<Attestation>)
    ensures |r| == |s|
  {
    if s == [] then [] else [SettleAttestation(s[0])] + SettleAttestations(s[1..])
  }

  function SettleReceipt(r: Receipt): Receipt {
    r.(authorization := SettleAuthorization(r.authorization), merchant := SettleMerchant(r.merchant),
       payment := SettlePayment(r.payment), attestations := SettleAttestations(r.attestations))
  }

  // ----- Sections

  lemma AgentTwice(a: Agent)
    requires NormalizeAgent(a).Ok?
    ensures NormalizeAgent(NormalizeAgent(a).value) == Ok(SettleAgent(NormalizeAgent(a).value))
  {
    hide Token, Hex64, Nonblank, OptStrip;
    NonblankTwice(a.operatorDid);
    Hex64Twice(a.configHash);
    Hex64Twice(a.promptHash);
    TokenTwice(a.modelFamily);
    OptStripTwice(a.modelInstanceId);
  }

  lemma PolicyTwice(p: Policy)
    requires NormalizePolicy(p).Ok?
    ensures NormalizePolicy(NormalizePolicy(p).value) == NormalizePolicy(p)
  {
    hide Hex64, Nonblank;
    NonblankTwice(p.templateId);
    Hex64Twice(p.contentDigest);
  }

  predicate AllTokens(s: seq<string>) {
    forall i | 0 <= i < |s| :: Token(s[i]) == Ok(s[i])
  }

  lemma AppendToken(front: seq<string>, last: string)
    requires NoDuplicates(front) && AllTokens(front) && Token(last) == Ok(last) && last !in front
    ensures NoDuplicates(front + [last]) && AllTokens(front + [last])
  {
    hide Token;
  }

  lemma {:induction false} ReasonCodesOutput(values: seq<string>)
    requires ReasonCodes(values).Ok?
    ensures NoDuplicates(ReasonCodes(values).value) && AllTokens(ReasonCodes(values).value)
  {
    hide Token;
    if values != [] {
      hide NoDuplicates, AllTokens;
      var front, last := ReasonCodes(values[..|values| - 1]).value, Token(values[|values| - 1]).value;
      ReasonCodesOutput(values[..|values| - 1]);
      TokenTwice(values[|values| - 1]);
      if last !in front {
        AppendToken(front, last);
      }
    }
  }

  lemma {:induction false} ReasonCodesFixed(out: seq<string>)
    requires NoDuplicates(out) && AllTokens(out)
    ensures ReasonCodes(out) == Ok(out)
  {
    hide Token;
    if out != [] {
      var front := out[..|out| - 1];
      ReasonCodesFixed(front);
      assert out == front + [out[|out| - 1]];
      assert out[|out| - 1] !in front;
    }
  }

  lemma ReasonCodesTwice(values: seq<string>)
    requires ReasonCodes(values).Ok?
    ensures ReasonCodes(ReasonCodes(values).value) == ReasonCodes(values)
  {
    ReasonCodesOutput(values);
    ReasonCodesFixed(ReasonCodes(values).value);
  }

  predicate SameParties(a: Authorization, b: Authorization) {
    && a.principalDid == b.principalDid && a.actorSubject == b.actorSubject && a.currency == b.currency
    && a.requestedSpendCents == b.requestedSpendCents && a.agent == b.agent && a.policy == b.policy
  }

  lemma PartiesTwice(a: Authorization, b: Authorization)
    requires AuthorizationParties(a).Ok? && SameParties(b, AuthorizationParties(a).value)
    ensures AuthorizationParties(b) == Ok(SettleAuthorization(b))
  {
    hide Nonblank, NormalizeAgent, NormalizePolicy, StripLower, IsCurrency, SettleAgent;
    NonblankTwice(a.principalDid);
    NonblankTwice(a.actorSubject);
    FoldTwice(a.currency);
    AgentTwice(a.agent);
    PolicyTwice(a.policy);
  }

  predicate SameDetails(a: Authorization, b: Authorization) {
    && a.decisionId == b.decisionId && a.authorizedAt == b.authorizedAt && a.reasonCodes == b.reasonCodes
    && a.auditId == b.auditId && a.mandateDigest == b.mandateDigest
    && a.mandateReferenceId == b.mandateReferenceId && a.zkPolicyProof == b.zkPolicyProof
  }

  lemma DetailsTwice(calendar: Calendar, a: Authorization, b: Authorization)
    requires calendar.PrintsBack(a.authorizedAt) && AuthorizationDetails(calendar, a).Ok?
             && SameDetails(b, AuthorizationDetails(calendar, a).value)
    ensures AuthorizationDetails(calendar, b) == Ok(b)
  {
    hide Uuid, Stamp, ReasonCodes, OptUuid, OptHexLenient, OptStripLenient;
    UuidTwice(a.decisionId);
    StampTwice(calendar, a.authorizedAt);
    ReasonCodesTwice(a.reasonCodes);
    OptUuidTwice(a.auditId);
    OptHexLenientTwice(a.mandateDigest);
    OptStripLenientTwice(a.mandateReferenceId);
    OptHexLenientTwice(a.zkPolicyProof);
  }

  lemma AuthorizationTwice(calendar: Calendar, a: Authorization)
    requires calendar.PrintsBack(a.authorizedAt) && NormalizeAuthorization(calendar, a).Ok?
    ensures NormalizeAuthorization(calendar, NormalizeAuthorization(calendar, a).value)
            == Ok(SettleAuthorization(NormalizeAuthorization(calendar, a).value))
  {
    hide AuthorizationParties, AuthorizationDetails, SettleAgent;
    var parties, n := AuthorizationParties(a).value, NormalizeAuthorization(calendar, a).value;
    PartiesKeepDetails(a);
    DetailsKeepParties(calendar, parties);
    PartiesTwice(a, n);
    DetailsTwice(calendar, parties, SettleAuthorization(n));
  }

  lemma PartiesKeepDetails(a: Authorization)
    requires AuthorizationParties(a).Ok?
    ensures SameDetails(AuthorizationParties(a).value, a)
  {
    hide Nonblank, NormalizeAgent, NormalizePolicy, StripLower, IsCurrency;
  }

  lemma DetailsKeepParties(calendar: Calendar, a: Authorization)
    requires AuthorizationDetails(calendar, a).Ok?
    ensures SameParties(AuthorizationDetails(calendar, a).value, a)
  {
    hide Uuid, Stamp, ReasonCodes, OptUuid, OptHexLenient, OptStripLenient;
  }

  lemma ExecutionIdentityTwice(e: Execution, f: Execution)
    requires ExecutionIdentity(e).Ok?
    requires var n := ExecutionIdentity(e).value;
             f == n.(startedAt := f.startedAt, completedAt := f.completedAt, resultDigest := f.resultDigest,
                     teeAttestation := f.teeAttestation)
    ensures ExecutionIdentity(f) == Ok(f)
  {
    hide Nonblank, Hex64, Uuid, Token, StripLower, IsExecutionOutcome;
    NonblankTwice(e.toolCallId);
    Hex64Twice(e.argumentsDigest);
    FoldTwice(e.outcome);
    UuidTwice(e.runId);
    TokenTwice(e.toolName);
    TokenTwice(e.operation);
  }

  lemma ExecutionTimesTwice(calendar: Calendar, e: Execution)
    requires calendar.PrintsBack(e.startedAt) && calendar.PrintsBack(e.completedAt) && ExecutionTimes(calendar, e).Ok?
    ensures ExecutionTimes(calendar, ExecutionTimes(calendar, e).value) == ExecutionTimes(calendar, e)
    ensures var f := ExecutionTimes(calendar, e).value;
            f == e.(startedAt := f.startedAt, completedAt := f.completedAt, resultDigest := f.resultDigest,
                    teeAttestation := f.teeAttestation)
  {
    hide Stamp, OptHex, OptHexLenient;
    StampTwice(calendar, e.startedAt);
    StampTwice(calendar, e.completedAt);
    OptHexTwice(e.resultDigest);
    OptHexLenientTwice(e.teeAttestation);
  }

  lemma ExecutionTwice(calendar: Calendar, e: Execution)
    requires calendar.PrintsBack(e.startedAt) && calendar.PrintsBack(e.completedAt)
    requires NormalizeExecution(calendar, e).Ok?
    ensures NormalizeExecution(calendar, NormalizeExecution(calendar, e).value) == NormalizeExecution(calendar, e)
    ensures StripLower(NormalizeExecution(calendar, e).value.runId) == NormalizeExecution(calendar, e).value.runId
  {
    hide ExecutionIdentity, ExecutionTimes, StripLower;
    var identity := ExecutionIdentity(e).value;
    IdentityKeepsTimes(e);
    ExecutionTimesTwice(calendar, identity);
    ExecutionIdentityTwice(e, NormalizeExecution(calendar, e).value);
    ExecutionRunId(e);
  }

  lemma IdentityKeepsTimes(e: Execution)
    requires ExecutionIdentity(e).Ok?
    ensures ExecutionIdentity(e).value.startedAt == e.startedAt
            && ExecutionIdentity(e).value.completedAt == e.completedAt
  {
    hide Nonblank, Hex64, Token, StripLower, IsExecutionOutcome, Uuid;
  }

  lemma ExecutionRunId(e: Execution)
    requires ExecutionIdentity(e).Ok?
    ensures StripLower(ExecutionIdentity(e).value.runId) == ExecutionIdentity(e).value.runId
  {
    hide Nonblank, Hex64, Token, StripLower, IsExecutionOutcome, Uuid;
    UuidTwice(e.runId);
  }

  lemma MerchantTwice(m: Merchant)
    requires NormalizeMerchant(m).Ok?
    ensures NormalizeMerchant(NormalizeMerchant(m).value)
            == Ok(NormalizeMerchant(m).value.(vendorRefId := Settle(NormalizeMerchant(m).value.vendorRefId)))
  {
    hide Nonblank, OptToken, OptStrip, Settle;
    NonblankTwice(m.payeeDid);
    OptTokenTwice(m.vendorId);
    OptStripTwice(m.vendorRefId);
  }

  lemma EvidenceTwice(e: Evidence)
    requires NormalizeEvidence(e).Ok?
    ensures NormalizeEvidence(NormalizeEvidence(e).value) == NormalizeEvidence(e)
  {
    hide Nonblank, Hex64, Token, OptHex;
    Hex64Twice(e.payloadDigest);
    NonblankTwice(e.payeeDid);
    TokenTwice(e.completionPresetId);
    OptHexTwice(e.artifactsDigest);
    OptHexTwice(e.payeeSignatureDigest);
  }

  lemma PaymentTwice(p: Payment)
    requires NormalizePayment(p).Ok?
    ensures NormalizePayment(NormalizePayment(p).value)
            == Ok(NormalizePayment(p).value.(fundingReference := Settle(NormalizePayment(p).value.fundingReference)))
  {
    hide Uuid, Token, OptToken, OptHex, OptStrip, Settle;
    UuidTwice(p.intentId);
    TokenTwice(p.settlementRail);
    OptTokenTwice(p.fundingMethod);
    OptStripTwice(p.fundingReference);
    OptHexTwice(p.fundingReceiptDigest);
  }

  lemma ReservationNonempty(s: string)
    requires IsReservationOutcome(s)
    ensures s != ""
  {
  }

  lemma ReservationTwice(o: Option<string>)
    requires OptReservation(o).Ok?
    ensures OptReservation(OptReservation(o).value) == OptReservation(o)
  {
    hide StripLower, IsReservationOutcome;
    if !Falsy(o) {
      FoldTwice(o.value);
      ReservationNonempty(StripLower(o.value));
    }
  }

  lemma OutcomeTwice(o: Outcome, scope: string)
    requires NormalizeOutcome(o, scope).Ok?
    ensures NormalizeOutcome(NormalizeOutcome(o, scope).value, scope) == NormalizeOutcome(o, scope)
  {
    hide Token, OptReservation, OptStripLenient, IsSettlementOutcome;
    TokenTwice(o.harborState);
    ReservationTwice(o.spendReservation);
    OptStripLenientTwice(o.settlementOutcome);
  }

  lemma SettlementIdTwice(o: Option<string>)
    requires NormalizeSettlementId(o).Ok?
    ensures NormalizeSettlementId(NormalizeSettlementId(o).value) == NormalizeSettlementId(o)
  {
    hide StripLower, IsUuid, IsHex64;
    if o.Some? {
      FoldTwice(o.value);
    }
  }

  lemma ReferencesTwice(r: References)
    requires NormalizeReferences(r).Ok?
    ensures NormalizeReferences(NormalizeReferences(r).value) == NormalizeReferences(r)
  {
    hide Uuid, NormalizeSettlementId;
    UuidTwice(r.intentId);
    SettlementIdTwice(r.settlementReceiptId);
  }

  lemma AttestationTwice(a: Attestation)
    requires NormalizeAttestation(a).Ok?
    ensures NormalizeAttestation(NormalizeAttestation(a).value) == Ok(SettleAttestation(NormalizeAttestation(a).value))
  {
    hide Hex64, Nonblank, Token, OptStrip, Settle;
    Hex64Twice(a.digest);
    NonblankTwice(a.kind);
    TokenTwice(a.source);
    OptStripTwice(a.referenceId);
  }

  lemma {:induction false} AttestationsTwice(s: seq<Attestation>)
    requires NormalizeAttestations(s).Ok?
    ensures NormalizeAttestations(NormalizeAttestations(s).value)
            == Ok(SettleAttestations(NormalizeAttestations(s).value))
  {
    hide NormalizeAttestation, SettleAttestation;
    if s != [] {
      AttestationTwice(s[0]);
      AttestationsTwice(s[1..]);
      ConsParts(NormalizeAttestation(s[0]).value, NormalizeAttestations(s[1..]).value);
    }
  }

  lemma {:induction false} MatchingSettled(digest: string, s: seq<Attestation>)
    ensures MatchingAttestation(digest, SettleAttestations(s))
            == match MatchingAttestation(digest, s)
               case None => None
               case Some(a) => Some(SettleAttestation(a))
  {
    hide Strip, StripLower, Settle;
    if s != [] {
      MatchingSettled(digest, s[1..]);
      ConsParts(SettleAttestation(s[0]), SettleAttestations(s[1..]));
    }
  }

  lemma ConsistencySettled(a: Authorization, s: seq<Attestation>)
    requires MandateConsistent(a, s)
    ensures MandateConsistent(SettleAuthorization(a), SettleAttestations(s))
  {
    hide Strip, StripLower, IsHex64, MatchingAttestation, SettleAttestations;
    MatchingSettled(StripLower(OptText(a.mandateDigest)), s);
  }

  lemma ContinuityTwice(c: Continuity, execution: Option<Execution>)
    requires NormalizeContinuity(c, execution).Ok?
    ensures NormalizeContinuity(NormalizeContinuity(c, execution).value, execution) == NormalizeContinuity(c, execution)
  {
    hide Uuid, StripLower, IsHex64;
    UuidTwice(c.runId);
    FoldTwice(OptText(c.prevDigest));
  }

  lemma OperatorTwice(o: OperatorAttestation)
    requires NormalizeOperator(o).Ok?
    ensures NormalizeOperator(NormalizeOperator(o).value) == NormalizeOperator(o)
  {
    hide Nonblank, Hex64, StripLower;
    NonblankTwice(o.operatorDid);
    Hex64Twice(o.messageDigestHex);
    Hex64Twice(o.publicKeyHex);
    FoldTwice(o.signatureHex);
  }

  // ----- The whole receipt

  lemma ConstantsFixed()
    ensures Strip(RECEIPT_KIND) == RECEIPT_KIND != "" && Strip(RECEIPT_VERSION) == RECEIPT_VERSION != ""
    ensures StripLower(SIGNING_ALGORITHM) == SIGNING_ALGORITHM != ""
  {
    hide Strip, StripLower, IsSpace, Folded;
    KindTrimmed();
    VersionTrimmed();
    AlgorithmFolded();
    FoldedFixed(SIGNING_ALGORITHM);
  }

  lemma KindTrimmed()
    ensures Strip(RECEIPT_KIND) == RECEIPT_KIND
  {
    hide Strip;
    assert RECEIPT_KIND[0] == 'p' && RECEIPT_KIND[|RECEIPT_KIND| - 1] == '1';
    StripTrimmed(RECEIPT_KIND);
  }

  lemma VersionTrimmed()
    ensures Strip(RECEIPT_VERSION) == RECEIPT_VERSION
  {
    hide Strip;
    StripTrimmed(RECEIPT_VERSION);
  }

  lemma AlgorithmFolded()
    ensures Folded(SIGNING_ALGORITHM)
  {
    var s := SIGNING_ALGORITHM;
    assert s[0] == 'e' && s[|s| - 1] == '1';
    forall i | 0 <= i < |s| ensures !('A' <= s[i] <= 'Z') {
      assert s[i] in "ed25519-sha256-json-v1";
    }
  }

  /** The fields the envelope pass leaves alone. */
  predicate SameEnvelope(a: Receipt, b: Receipt) {
    && a.schemaVersion == b.schemaVersion && a.kind == b.kind && a.receiptVersion == b.receiptVersion
    && a.scope == b.scope && a.receiptId == b.receiptId && a.tenantId == b.tenantId && a.issuedAt == b.issuedAt
    && a.signingAlgorithm == b.signingAlgorithm && a.messageDigestHex == b.messageDigestHex
    && a.publicKeyHex == b.publicKeyHex && a.signatureHex == b.signatureHex
  }

  lemma EnvelopeTwice(calendar: Calendar, r: Receipt, n: Receipt)
    requires calendar.PrintsBack(r.issuedAt) && Envelope(calendar, r).Ok?
             && SameEnvelope(n, Envelope(calendar, r).value)
    ensures Envelope(calendar, n) == Ok(n)
  {
    hide Strip, StripLower, Nonblank, Stamp, RECEIPT_KIND, RECEIPT_VERSION, SIGNING_ALGORITHM;
    ConstantsFixed();
    FoldTwice(r.scope);
    FoldTwice(r.receiptId);
    NonblankTwice(r.tenantId);
    FoldTwice(r.signingAlgorithm);
    FoldTwice(r.messageDigestHex);
    FoldTwice(r.publicKeyHex);
    FoldTwice(r.signatureHex);
    StampTwice(calendar, r.issuedAt);
  }

  predicate SameCore(a: Receipt, b: Receipt) {
    && a.authorization == b.authorization && a.references == b.references && a.attestations == b.attestations
    && a.outcome == b.outcome && a.scope == b.scope
  }

  lemma CoreTwice(calendar: Calendar, r: Receipt, n: Receipt)
    requires calendar.PrintsBack(r.authorization.authorizedAt) && Core(calendar, r).Ok?
             && SameCore(n, Core(calendar, r).value)
    ensures Core(calendar, n)
            == Ok(n.(authorization := SettleAuthorization(n.authorization),
                     attestations := SettleAttestations(n.attestations)))
  {
    hide NormalizeAuthorization, NormalizeReferences, NormalizeAttestations, NormalizeOutcome, MandateConsistent;
    hide SettleAuthorization, SettleAttestations;
    AuthorizationTwice(calendar, r.authorization);
    ReferencesTwice(r.references);
    AttestationsTwice(r.attestations);
    ConsistencySettled(n.authorization, n.attestations);
    OutcomeTwice(r.outcome, r.scope);
  }

  predicate SameParts(a: Receipt, b: Receipt) {
    && a.execution == b.execution && a.merchant == b.merchant && a.evidence == b.evidence && a.payment == b.payment
    && a.continuity == b.continuity && a.operatorAttestation == b.operatorAttestation && a.scope == b.scope
  }

  lemma PartsTwice(calendar: Calendar, r: Receipt, n: Receipt)
    requires r.scope == "action" ==> ExecutionPrintsBack(calendar, r.execution)
    requires Parts(calendar, r).Ok? && SameParts(n, Parts(calendar, r).value)
    ensures Parts(calendar, n) == Ok(n.(merchant := SettleMerchant(n.merchant), payment := SettlePayment(n.payment)))
  {
    hide OptExecution, OptMerchant, OptEvidence, OptPayment, OptContinuity, OptOperator;
    hide SettleMerchant, SettlePayment;
    OptExecutionTwice(calendar, r.scope, r.execution);
    OptPartsTwice(r.merchant, r.evidence, r.payment);
    OptLinksTwice(r.continuity, n.execution, r.operatorAttestation);
  }

  lemma OptExecutionTwice(calendar: Calendar, scope: string, o: Option<Execution>)
    requires scope == "action" ==> ExecutionPrintsBack(calendar, o)
    requires OptExecution(calendar, scope, o).Ok?
    ensures OptExecution(calendar, scope, OptExecution(calendar, scope, o).value) == OptExecution(calendar, scope, o)
  {
    hide NormalizeExecution;
    if scope == "action" {
      ExecutionTwice(calendar, o.value);
    }
  }

  lemma OptPartsTwice(m: Option<Merchant>, e: Option<Evidence>, p: Option<Payment>)
    requires OptMerchant(m).Ok? && OptEvidence(e).Ok? && OptPayment(p).Ok?
    ensures OptMerchant(OptMerchant(m).value) == Ok(SettleMerchant(OptMerchant(m).value))
    ensures OptEvidence(OptEvidence(e).value) == OptEvidence(e)
    ensures OptPayment(OptPayment(p).value) == Ok(SettlePayment(OptPayment(p).value))
  {
    hide NormalizeMerchant, NormalizeEvidence, NormalizePayment, Settle;
    if m.Some? {
      MerchantTwice(m.value);
    }
    if e.Some? {
      EvidenceTwice(e.value);
    }
    if p.Some? {
      PaymentTwice(p.value);
    }
  }

  lemma OptLinksTwice(c: Option<Continuity>, execution: Option<Execution>, o: Option<OperatorAttestation>)
    requires OptContinuity(c, execution).Ok? && OptOperator(o).Ok?
    ensures OptContinuity(OptContinuity(c, execution).value, execution) == OptContinuity(c, execution)
    ensures OptOperator(OptOperator(o).value) == OptOperator(o)
  {
    hide NormalizeContinuity, NormalizeOperator;
    if c.Some? {
      ContinuityTwice(c.value, execution);
    }
    if o.Some? {
      OperatorTwice(o.value);
    }
  }

  lemma PassesKeepRest(calendar: Calendar, r: Receipt)
    ensures Core(calendar, r).Ok? ==> SameEnvelope(Core(calendar, r).value, r)
    ensures Parts(calendar, r).Ok? ==>
              SameEnvelope(Parts(calendar, r).value, r) && SameCore(Parts(calendar, r).value, r)
  {
    hide NormalizeAuthorization, NormalizeReferences, NormalizeAttestations, NormalizeOutcome, MandateConsistent;
    hide OptExecution, OptMerchant, OptEvidence, OptPayment, OptContinuity, OptOperator;
  }

  // ----- The stamps of a receipt

  predicate ExecutionPrintsBack(calendar: Calendar, o: Option<Execution>) {
    o.Some? ==> calendar.PrintsBack(o.value.startedAt) && calendar.PrintsBack(o.value.completedAt)
  }

  /** Every timestamp that normalisation reads prints back: the execution counts for actions only. */
  predicate StampsPrintBack(calendar: Calendar, r: Receipt) {
    && calendar.PrintsBack(r.issuedAt) && calendar.PrintsBack(r.authorization.authorizedAt)
    && (StripLower(r.scope) == "action" ==> ExecutionPrintsBack(calendar, r.execution))
  }

  predicate ExecutionParses(calendar: Calendar, o: Option<Execution>) {
    o.Some? && calendar.parse(o.value.startedAt).Some? && calendar.parse(o.value.completedAt).Some?
  }

  predicate StampsParse(calendar: Calendar, r: Receipt) {
    && calendar.parse(r.issuedAt).Some? && calendar.parse(r.authorization.authorizedAt).Some?
    && (StripLower(r.scope) == "action" ==> ExecutionParses(calendar, r.execution))
  }

  /** The stamps of `n` are those printed for the stamps of `r`. */
  predicate StampsPrinted(calendar: Calendar, r: Receipt, n: Receipt)
    requires StampsParse(calendar, r)
  {
    && n.issuedAt == calendar.Printed(r.issuedAt)
    && n.authorization.authorizedAt == calendar.Printed(r.authorization.authorizedAt)
    && n.scope == StripLower(r.scope)
    && (n.scope == "action" ==>
          && n.execution.Some?
          && n.execution.value.startedAt == calendar.Printed(r.execution.value.startedAt)
          && n.execution.value.completedAt == calendar.Printed(r.execution.value.completedAt))
  }

  lemma EnvelopeStamp(calendar: Calendar, r: Receipt)
    requires Envelope(calendar, r).Ok?
    ensures var e := Envelope(calendar, r).value;
            && e.authorization == r.authorization && e.execution == r.execution && e.scope == StripLower(r.scope)
            && calendar.parse(r.issuedAt).Some? && e.issuedAt == calendar.Printed(r.issuedAt)
  {
    hide Strip, StripLower, Nonblank, RECEIPT_KIND, RECEIPT_VERSION, SIGNING_ALGORITHM;
  }

  lemma AuthorizationStamp(calendar: Calendar, a: Authorization)
    requires NormalizeAuthorization(calendar, a).Ok?
    ensures calendar.parse(a.authorizedAt).Some?
    ensures NormalizeAuthorization(calendar, a).value.authorizedAt == calendar.Printed(a.authorizedAt)
  {
    hide AuthorizationParties, Uuid, ReasonCodes, OptUuid, OptHexLenient, OptStripLenient;
    PartiesKeepDetails(a);
  }

  lemma CoreStamp(calendar: Calendar, r: Receipt)
    requires Core(calendar, r).Ok?
    ensures var c := Core(calendar, r).value;
            && c.issuedAt == r.issuedAt && c.execution == r.execution && c.scope == r.scope
            && calendar.parse(r.authorization.authorizedAt).Some?
            && c.authorization.authorizedAt == calendar.Printed(r.authorization.authorizedAt)
  {
    hide NormalizeAuthorization, NormalizeReferences, NormalizeAttestations, NormalizeOutcome, MandateConsistent;
    AuthorizationStamp(calendar, r.authorization);
  }

  lemma ExecutionStamps(calendar: Calendar, e: Execution)
    requires NormalizeExecution(calendar, e).Ok?
    ensures calendar.parse(e.startedAt).Some? && calendar.parse(e.completedAt).Some?
    ensures var n := NormalizeExecution(calendar, e).value;
            n.startedAt == calendar.Printed(e.startedAt) && n.completedAt == calendar.Printed(e.completedAt)
  {
    hide ExecutionIdentity, OptHex, OptHexLenient;
    IdentityKeepsTimes(e);
  }

  lemma PartsStamps(calendar: Calendar, r: Receipt)
    requires Parts(calendar, r).Ok?
    ensures var n := Parts(calendar, r).value;
            && n.issuedAt == r.issuedAt && n.authorization == r.authorization && n.scope == r.scope
            && (r.scope == "action" ==>
                  && ExecutionParses(calendar, r.execution) && n.execution.Some?
                  && n.execution.value.startedAt == calendar.Printed(r.execution.value.startedAt)
                  && n.execution.value.completedAt == calendar.Printed(r.execution.value.completedAt))
  {
    hide OptMerchant, OptEvidence, OptPayment, OptContinuity, OptOperator, NormalizeExecution;
    if r.scope == "action" {
      ExecutionStamps(calendar, r.execution.value);
    }
  }

  lemma NormalizedStamps(hash: Hash, calendar: Calendar, r: Receipt)
    requires Normalize(hash, calendar, r).Ok?
    ensures StampsParse(calendar, r) && StampsPrinted(calendar, r, Normalize(hash, calendar, r).value)
  {
    hide Envelope, Core, Parts, ReceiptIdMatches, StripLower;
    var envelope := Envelope(calendar, r).value;
    EnvelopeStamp(calendar, r);
    CoreStamp(calendar, envelope);
    PartsStamps(calendar, Core(calendar, envelope).value);
  }

  /** A second normalisation of printed stamps that parse succeeds and only settles the emptied optional strings. */
  lemma NormalizeTwice(hash: Hash, calendar: Calendar, r: Receipt)
    requires StampsPrintBack(calendar, r) && Normalize(hash, calendar, r).Ok?
    ensures Normalize(hash, calendar, Normalize(hash, calendar, r).value)
            == Ok(SettleReceipt(Normalize(hash, calendar, r).value))
  {
    hide Envelope, Core, Parts, ReceiptIdMatches, SettleAuthorization, SettleAttestations, SettleMerchant,
      SettlePayment, StripLower;
    var envelope := Envelope(calendar, r).value;
    var core := Core(calendar, envelope).value;
    var n := Parts(calendar, core).value;
    EnvelopeStamp(calendar, r);
    CoreStamp(calendar, envelope);
    PassesKeepRest(calendar, envelope);
    PassesKeepRest(calendar, core);
    EnvelopeTwice(calendar, r, n);
    CoreTwice(calendar, envelope, n);
    var n1 := n.(authorization := SettleAuthorization(n.authorization),
                 attestations := SettleAttestations(n.attestations));
    PartsTwice(calendar, core, n1);
    ReceiptIdSettled(hash, n);
  }

  /**
    A normalised receipt normalises again if and only if every timestamp of the original prints back, and then the
    second pass only settles the emptied optional strings.
   */
  lemma NormalizesAgainExactly(hash: Hash, calendar: Calendar, r: Receipt)
    requires calendar.Faithful() && Normalize(hash, calendar, r).Ok?
    ensures var n := Normalize(hash, calendar, r).value;
            && (Normalize(hash, calendar, n).Ok? <==> StampsPrintBack(calendar, r))
            && (Normalize(hash, calendar, n).Ok? ==> Normalize(hash, calendar, n) == Ok(SettleReceipt(n)))
  {
    hide Normalize, SettleReceipt;
    var n := Normalize(hash, calendar, r).value;
    if StampsPrintBack(calendar, r) {
      NormalizeTwice(hash, calendar, r);
    } else {
      NormalizedStamps(hash, calendar, r);
      StampsDecide(calendar, r, n);
      if Normalize(hash, calendar, n).Ok? {
        NormalizedStamps(hash, calendar, n);
      }
    }
  }

  /** Printed stamps parse exactly when the originals print back. */
  lemma StampsDecide(calendar: Calendar, r: Receipt, n: Receipt)
    requires calendar.Faithful() && StampsParse(calendar, r) && StampsPrinted(calendar, r, n)
    ensures StampsParse(calendar, n) <==> StampsPrintBack(calendar, r)
  {
    hide StripLower;
    FoldTwice(r.scope);
  }

  lemma ReceiptIdSettled(hash: Hash, n: Receipt)
    requires ReceiptIdMatches(hash, n)
    ensures ReceiptIdMatches(hash, SettleReceipt(n))
  {
    hide ActionReceiptId, IsUuid, StripLower;
  }
}
