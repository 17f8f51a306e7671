/**
  What receipt normalisation does, field by field: every field of the result is the same field of the receipt,
  respelled by trimming, folding or printing, or dropped where the field counts as absent. The relation mentions none
  of the section normalisers and holds of a result exactly when normalisation gives it.
 */
module ReceiptSpelling {
  import opened Basics
  import opened Text
  import opened Time
  import opened Ordering
  import opened Receipt
  import opened ReceiptFixpoint

  // ----- Spellings of one field

  predicate Trims(value: string, n: string) {
    n == Strip(value) && n != ""
  }

  predicate TokenOf(value: string, n: string) {
    n == StripLower(value) && IsScopeToken(n)
  }

  predicate UuidOf(value: string, n: string) {
    n == StripLower(value) && IsUuid(n)
  }

  predicate DigestOf(value: string, n: string) {
    n == StripLower(value) && IsHex64(n)
  }

  predicate StampOf(calendar: Calendar, value: string, n: string) {
    calendar.parse(value).Some? && n == calendar.Printed(value)
  }

  /** A missing key or an empty string. */
  predicate Absent(o: Option<string>) {
    o == None || o == Some("")
  }

  predicate Blank(o: Option<string>) {
    o == None || Strip(o.value) == ""
  }

  /** Trimmed where present; all white space leaves an empty string. */
  predicate OptTrimmed(o: Option<string>, n: Option<string>) {
    if Absent(o) then n == None else n == Some(Strip(o.value))
  }

  predicate OptTrimmedOrDropped(o: Option<string>, n: Option<string>) {
    if Absent(o) || Blank(o) then n == None else n == Some(Strip(o.value))
  }

  predicate OptTokenOf(o: Option<string>, n: Option<string>) {
    if Absent(o) then n == None else n.Some? && TokenOf(o.value, n.value)
  }

  predicate OptUuidOf(o: Option<string>, n: Option<string>) {
    if Absent(o) then n == None else n.Some? && UuidOf(o.value, n.value)
  }

  predicate OptDigestOf(o: Option<string>, n: Option<string>) {
    if Absent(o) then n == None else n.Some? && DigestOf(o.value, n.value)
  }

  predicate OptDigestOrDropped(o: Option<string>, n: Option<string>) {
    if Absent(o) || Blank(o) then n == None else n.Some? && DigestOf(o.value, n.value)
  }

  // ----- Sections

  predicate AgentSpelled(a: Agent, n: Agent) {
    && Trims(a.operatorDid, n.operatorDid) && TokenOf(a.modelFamily, n.modelFamily)
    && DigestOf(a.configHash, n.configHash) && DigestOf(a.promptHash, n.promptHash)
    && OptTrimmed(a.modelInstanceId, n.modelInstanceId) && n.deploymentEpoch == a.deploymentEpoch
  }

  predicate PolicySpelled(p: Policy, n: Policy) {
    && Trims(p.templateId, n.templateId) && DigestOf(p.contentDigest, n.contentDigest)
    && n.versionSeq == p.versionSeq && n.spendPolicyVersion == p.spendPolicyVersion
  }

  predicate PartiesSpelled(a: Authorization, n: Authorization) {
    && Trims(a.principalDid, n.principalDid) && Trims(a.actorSubject, n.actorSubject)
    && n.currency == StripLower(a.currency) && |n.currency| == 3
    && (forall i | 0 <= i < |n.currency| :: 'a' <= n.currency[i] <= 'z')
    && n.requestedSpendCents == a.requestedSpendCents >= 0
    && AgentSpelled(a.agent, n.agent) && PolicySpelled(a.policy, n.policy)
  }

  /** The first position whose folded code is x, or past the end. */
  function FirstIndex(raw: seq<string>, x: string): nat {
    if raw == [] then 0 else if StripLower(raw[0]) == x then 0 else 1 + FirstIndex(raw[1..], x)
  }

  /** The folded codes without repetition, in the order of their first occurrences. */
  predicate CodesSpelled(raw: seq<string>, n: seq<string>) {
    && (forall i | 0 <= i < |raw| :: IsScopeToken(StripLower(raw[i])) && StripLower(raw[i]) in n)
    && (forall j | 0 <= j < |n| :: FirstIndex(raw, n[j]) < |raw|)
    && (forall j, k | 0 <= j < k < |n| :: FirstIndex(raw, n[j]) < FirstIndex(raw, n[k]))
  }

  predicate DetailsSpelled(calendar: Calendar, a: Authorization, n: Authorization) {
    && UuidOf(a.decisionId, n.decisionId) && StampOf(calendar, a.authorizedAt, n.authorizedAt)
    && CodesSpelled(a.reasonCodes, n.reasonCodes) && OptUuidOf(a.auditId, n.auditId)
    && OptDigestOrDropped(a.mandateDigest, n.mandateDigest)
    && OptTrimmedOrDropped(a.mandateReferenceId, n.mandateReferenceId)
    && (n.mandateReferenceId.Some? ==> n.mandateDigest.Some?)
    && OptDigestOrDropped(a.zkPolicyProof, n.zkPolicyProof)
  }

  predicate ExecutionSpelled(calendar: Calendar, e: Execution, n: Execution) {
    && UuidOf(e.runId, n.runId) && Trims(e.toolCallId, n.toolCallId) && TokenOf(e.toolName, n.toolName)
    && TokenOf(e.operation, n.operation) && DigestOf(e.argumentsDigest, n.argumentsDigest)
    && OptDigestOf(e.resultDigest, n.resultDigest)
    && n.outcome == StripLower(e.outcome) && n.outcome in ["executed", "denied", "skipped", "failed"]
    && StampOf(calendar, e.startedAt, n.startedAt) && StampOf(calendar, e.completedAt, n.completedAt)
    && n.durationMs == e.durationMs && (n.durationMs.Some? ==> n.durationMs.value >= 0)
    && OptDigestOrDropped(e.teeAttestation, n.teeAttestation)
  }

  predicate MerchantSpelled(m: Merchant, n: Merchant) {
    && Trims(m.payeeDid, n.payeeDid) && OptTokenOf(m.vendorId, n.vendorId) && OptTrimmed(m.vendorRefId, n.vendorRefId)
  }

  predicate EvidenceSpelled(e: Evidence, n: Evidence) {
    && TokenOf(e.completionPresetId, n.completionPresetId) && DigestOf(e.payloadDigest, n.payloadDigest)
    && OptDigestOf(e.artifactsDigest, n.artifactsDigest) && n.predicatePassed == e.predicatePassed
    && Trims(e.payeeDid, n.payeeDid) && OptDigestOf(e.payeeSignatureDigest, n.payeeSignatureDigest)
  }

  predicate PaymentSpelled(p: Payment, n: Payment) {
    && UuidOf(p.intentId, n.intentId) && TokenOf(p.settlementRail, n.settlementRail)
    && OptTokenOf(p.fundingMethod, n.fundingMethod) && OptTrimmed(p.fundingReference, n.fundingReference)
    && OptDigestOf(p.fundingReceiptDigest, n.fundingReceiptDigest)
  }

  predicate OutcomeSpelled(o: Outcome, scope: string, n: Outcome) {
    && TokenOf(o.harborState, n.harborState) && n.predicatePassed == o.predicatePassed
    && (if Absent(o.spendReservation) then n.spendReservation == None
        else && n.spendReservation == Some(StripLower(o.spendReservation.value))
             && n.spendReservation.value in ["consumed", "released", "pending", "none"])
    && OptTrimmedOrDropped(o.settlementOutcome, n.settlementOutcome)
    && (n.settlementOutcome.Some? ==>
          && n.settlementOutcome.value in ["SETTLED", "PENDING_FINALITY", "REVERSED", "FAILED"]
          && scope == "intent_terminal")
  }

  /** An empty settlement id is kept as it is, a blank one becomes none. */
  predicate ReferencesSpelled(r: References, n: References) {
    && UuidOf(r.intentId, n.intentId) && n.ledgerSeq == r.ledgerSeq >= 0
    && (if Absent(r.settlementReceiptId) then n.settlementReceiptId == r.settlementReceiptId
        else if Blank(r.settlementReceiptId) then n.settlementReceiptId == None
        else && n.settlementReceiptId == Some(StripLower(r.settlementReceiptId.value))
             && (IsUuid(n.settlementReceiptId.value) || IsHex64(n.settlementReceiptId.value)))
  }

  predicate AttestationSpelled(a: Attestation, n: Attestation) {
    && TokenOf(a.source, n.source) && Trims(a.kind, n.kind) && DigestOf(a.digest, n.digest)
    && OptTrimmed(a.referenceId, n.referenceId)
  }

  predicate AttestationsSpelled(s: seq<Attestation>, n: seq<Attestation>) {
    |n| == |s| && forall i | 0 <= i < |s| :: AttestationSpelled(s[i], n[i])
  }

  predicate ContinuitySpelled(c: Continuity, execution: Option<Execution>, n: Continuity) {
    && UuidOf(c.runId, n.runId) && n.sequenceNumber == c.sequenceNumber >= 1
    && (if n.sequenceNumber == 1 then Blank(c.prevDigest) && n.prevDigest == None
        else c.prevDigest.Some? && n.prevDigest.Some? && DigestOf(c.prevDigest.value, n.prevDigest.value))
    && (execution.Some? ==> StripLower(execution.value.runId) == n.runId)
  }

  predicate OperatorSpelled(o: OperatorAttestation, n: OperatorAttestation) {
    && Trims(o.operatorDid, n.operatorDid) && DigestOf(o.publicKeyHex, n.publicKeyHex)
    && DigestOf(o.messageDigestHex, n.messageDigestHex)
    && n.signatureHex == StripLower(o.signatureHex) && |n.signatureHex| == 128
  }

  // ----- Each section normaliser gives exactly the respelling

  lemma AgentExactly(a: Agent, n: Agent)
    ensures NormalizeAgent(a) == Ok(n) <==> AgentSpelled(a, n)
  {
    hide Strip, StripLower, IsHex64, IsScopeToken;
  }

  lemma PolicyExactly(p: Policy, n: Policy)
    ensures NormalizePolicy(p) == Ok(n) <==> PolicySpelled(p, n)
  {
    hide Strip, StripLower, IsHex64;
  }

  lemma PartiesExactly(a: Authorization, n: Authorization)
    ensures AuthorizationParties(a).Ok? && SameParties(n, AuthorizationParties(a).value) <==> PartiesSpelled(a, n)
  {
    hide Strip, StripLower, NormalizeAgent, NormalizePolicy, AgentSpelled, PolicySpelled;
    AgentExactly(a.agent, n.agent);
    PolicyExactly(a.policy, n.policy);
  }

  lemma MerchantExactly(m: Merchant, n: Merchant)
    ensures NormalizeMerchant(m) == Ok(n) <==> MerchantSpelled(m, n)
  {
    hide Strip, StripLower, IsScopeToken;
  }

  lemma EvidenceExactly(e: Evidence, n: Evidence)
    ensures NormalizeEvidence(e) == Ok(n) <==> EvidenceSpelled(e, n)
  {
    hide Strip, StripLower, IsScopeToken, IsHex64;
  }

  lemma PaymentExactly(p: Payment, n: Payment)
    ensures NormalizePayment(p) == Ok(n) <==> PaymentSpelled(p, n)
  {
    hide Strip, StripLower, IsScopeToken, IsHex64, IsUuid;
  }

  lemma OutcomeExactly(o: Outcome, scope: string, n: Outcome)
    ensures NormalizeOutcome(o, scope) == Ok(n) <==> OutcomeSpelled(o, scope, n)
  {
    hide Strip, StripLower, IsScopeToken;
  }

  lemma ReferencesExactly(r: References, n: References)
    ensures NormalizeReferences(r) == Ok(n) <==> ReferencesSpelled(r, n)
  {
    hide Strip, IsHex64, IsUuid;
  }

  lemma AttestationExactly(a: Attestation, n: Attestation)
    ensures NormalizeAttestation(a) == Ok(n) <==> AttestationSpelled(a, n)
  {
    hide Strip, StripLower, IsScopeToken, IsHex64;
  }

  lemma {:induction false} AttestationsExactly(s: seq<Attestation>, n: seq<Attestation>)
    ensures NormalizeAttestations(s) == Ok(n) <==> AttestationsSpelled(s, n)
  {
    hide NormalizeAttestation, AttestationSpelled;
    if s != [] && n != [] {
      AttestationExactly(s[0], n[0]);
      AttestationsExactly(s[1..], n[1..]);
      AttestationsCons(s, n);
      HeadTail(n);
      if NormalizeAttestations(s).Ok? {
        ConsParts(NormalizeAttestation(s[0]).value, NormalizeAttestations(s[1..]).value);
      }
    }
  }

  lemma AttestationsCons(s: seq<Attestation>, n: seq<Attestation>)
    requires s != [] && n != []
    ensures AttestationsSpelled(s, n) <==> AttestationSpelled(s[0], n[0]) && AttestationsSpelled(s[1..], n[1..])
  {
    hide AttestationSpelled;
    HeadTail(s);
    HeadTail(n);
  }

  lemma ContinuityExactly(c: Continuity, execution: Option<Execution>, n: Continuity)
    ensures NormalizeContinuity(c, execution) == Ok(n) <==> ContinuitySpelled(c, execution, n)
  {
    hide Strip, IsHex64, IsUuid;
    EmptyDigest();
  }

  lemma EmptyDigest()
    ensures !IsHex64("") && StripLower("") == "" && Strip("") == ""
  {
  }

  lemma OperatorExactly(o: OperatorAttestation, n: OperatorAttestation)
    ensures NormalizeOperator(o) == Ok(n) <==> OperatorSpelled(o, n)
  {
    hide Strip, StripLower, IsHex64;
  }

  // ----- Reason codes

  lemma {:induction false} FirstIndexFacts(raw: seq<string>, x: string)
    ensures FirstIndex(raw, x) <= |raw|
    ensures FirstIndex(raw, x) < |raw| ==> StripLower(raw[FirstIndex(raw, x)]) == x
    ensures forall i | 0 <= i < |raw| && StripLower(raw[i]) == x :: FirstIndex(raw, x) <= i
  {
    hide StripLower;
    if raw != [] {
      FirstIndexFacts(raw[1..], x);
      forall i | 0 <= i < |raw| && StripLower(raw[i]) == x ensures FirstIndex(raw, x) <= i {
        if i > 0 {
          assert raw[i] == raw[1..][i - 1];
        }
      }
    }
  }

  lemma {:induction false} FirstIndexPrefix(front: seq<string>, last: string, x: string)
    ensures FirstIndex(front + [last], x) == if FirstIndex(front, x) < |front| then FirstIndex(front, x)
                                             else if StripLower(last) == x then |front| else |front| + 1
  {
    hide StripLower;
    if front == [] {
      assert [] + [last] == [last] && [last][1..] == [];
    } else {
      assert (front + [last])[1..] == front[1..] + [last];
      FirstIndexPrefix(front[1..], last, x);
    }
  }

  /** The codes kept are spelled as the relation says. */
  lemma {:induction false} CodesGiven(raw: seq<string>)
    requires ReasonCodes(raw).Ok?
    ensures CodesSpelled(raw, ReasonCodes(raw).value)
  {
    hide StripLower, IsScopeToken;
    if raw != [] {
      var front, last := raw[..|raw| - 1], raw[|raw| - 1];
      var kept := ReasonCodes(front).value;
      CodesGiven(front);
      assert raw == front + [last];
      hide ReasonCodes;
      CodesAppend(front, kept, last);
    }
  }

  lemma CodesAppend(front: seq<string>, kept: seq<string>, last: string)
    requires CodesSpelled(front, kept) && IsScopeToken(StripLower(last))
    ensures var x := StripLower(last); CodesSpelled(front + [last], if x in kept then kept else kept + [x])
  {
    hide StripLower, IsScopeToken, FirstIndex;
    var x := StripLower(last);
    var n := if x in kept then kept else kept + [x];
    forall y ensures FirstIndex(front, y) < |front| ==> FirstIndex(front + [last], y) == FirstIndex(front, y) {
      FirstIndexPrefix(front, last, y);
    }
    FirstIndexPrefix(front, last, x);
    FirstIndexFacts(front, x);
    SeenIsKept(front, kept, x);
  }

  lemma SeenIsKept(front: seq<string>, kept: seq<string>, x: string)
    requires CodesSpelled(front, kept)
    ensures FirstIndex(front, x) < |front| ==> x in kept
  {
    hide StripLower, IsScopeToken, FirstIndex;
    FirstIndexFacts(front, x);
    if FirstIndex(front, x) < |front| {
      assert StripLower(front[FirstIndex(front, x)]) in kept;
    }
  }

  /** Two spellings of the same codes are the same list. */
  lemma CodesUnique(raw: seq<string>, a: seq<string>, b: seq<string>)
    requires CodesSpelled(raw, a) && CodesSpelled(raw, b)
    ensures a == b
  {
    hide StripLower, IsScopeToken, FirstIndex;
    var leq := (x: string, y: string) => FirstIndex(raw, x) <= FirstIndex(raw, y);
    SameCodes(raw, a, b);
    SameCodes(raw, b, a);
    CodesDistinct(raw, a);
    CodesDistinct(raw, b);
    NoDuplicatesMultiset(a);
    NoDuplicatesMultiset(b);
    assert (set x | x in a) == (set x | x in b);
    SortedUnique(leq, a, b);
  }

  lemma SameCodes(raw: seq<string>, a: seq<string>, b: seq<string>)
    requires CodesSpelled(raw, a) && CodesSpelled(raw, b)
    ensures forall x | x in a :: x in b
  {
    hide StripLower, IsScopeToken, FirstIndex;
    forall x | x in a ensures x in b {
      FirstIndexFacts(raw, x);
      var j :| 0 <= j < |a| && a[j] == x;
      assert StripLower(raw[FirstIndex(raw, a[j])]) in b;
    }
  }

  lemma CodesDistinct(raw: seq<string>, a: seq<string>)
    requires CodesSpelled(raw, a)
    ensures NoDuplicates(a)
  {
    hide StripLower, IsScopeToken, FirstIndex;
    forall j, k | 0 <= j < k < |a| ensures a[j] != a[k] {
      assert FirstIndex(raw, a[j]) < FirstIndex(raw, a[k]);
    }
  }

  lemma {:induction false} CodesAccepted(raw: seq<string>)
    ensures ReasonCodes(raw).Ok? <==> forall i | 0 <= i < |raw| :: IsScopeToken(StripLower(raw[i]))
  {
    hide StripLower, IsScopeToken;
    if raw != [] {
      CodesAccepted(raw[..|raw| - 1]);
      assert raw == raw[..|raw| - 1] + [raw[|raw| - 1]];
    }
  }

  lemma CodesExactly(raw: seq<string>, n: seq<string>)
    ensures ReasonCodes(raw) == Ok(n) <==> CodesSpelled(raw, n)
  {
    hide ReasonCodes, StripLower, IsScopeToken, FirstIndex;
    CodesAccepted(raw);
    if ReasonCodes(raw).Ok? {
      CodesGiven(raw);
      if CodesSpelled(raw, n) {
        CodesUnique(raw, ReasonCodes(raw).value, n);
      }
    }
  }

  // ----- Authorization and execution

  lemma DetailsExactly(calendar: Calendar, a: Authorization, n: Authorization)
    ensures AuthorizationDetails(calendar, a).Ok? && SameDetails(n, AuthorizationDetails(calendar, a).value)
            <==> DetailsSpelled(calendar, a, n)
  {
    hide Strip, IsHex64, IsUuid, ReasonCodes, CodesSpelled;
    CodesExactly(a.reasonCodes, n.reasonCodes);
  }

  predicate AuthorizationSpelled(calendar: Calendar, a: Authorization, n: Authorization) {
    PartiesSpelled(a, n) && DetailsSpelled(calendar, a, n)
  }

  lemma SameAuthorization(a: Authorization, b: Authorization)
    ensures a == b <==> SameParties(a, b) && SameDetails(a, b)
  {
  }

  lemma DetailsOfParties(calendar: Calendar, a: Authorization, b: Authorization, n: Authorization)
    requires SameDetails(b, a)
    ensures DetailsSpelled(calendar, b, n) == DetailsSpelled(calendar, a, n)
  {
    hide CodesSpelled, UuidOf, StampOf, OptUuidOf, OptDigestOrDropped, OptTrimmedOrDropped;
  }

  lemma AuthorizationExactly(calendar: Calendar, a: Authorization, n: Authorization)
    ensures NormalizeAuthorization(calendar, a) == Ok(n) <==> AuthorizationSpelled(calendar, a, n)
  {
    hide AuthorizationParties, AuthorizationDetails, PartiesSpelled, DetailsSpelled, SameParties, SameDetails;
    PartiesExactly(a, n);
    if AuthorizationParties(a).Ok? {
      var parties := AuthorizationParties(a).value;
      PartiesKeepDetails(a);
      DetailsOfParties(calendar, a, parties, n);
      DetailsExactly(calendar, parties, n);
      if AuthorizationDetails(calendar, parties).Ok? {
        var m := AuthorizationDetails(calendar, parties).value;
        DetailsKeepParties(calendar, parties);
        SameAuthorization(n, m);
        SamePartiesVia(n, m, parties);
      }
    }
  }

  lemma SamePartiesVia(n: Authorization, m: Authorization, p: Authorization)
    requires SameParties(m, p)
    ensures SameParties(n, m) <==> SameParties(n, p)
  {
  }

  lemma ExecutionExactly(calendar: Calendar, e: Execution, n: Execution)
    ensures NormalizeExecution(calendar, e) == Ok(n) <==> ExecutionSpelled(calendar, e, n)
  {
    hide Strip, IsHex64, IsUuid, IsScopeToken, ExecutionIdentity, ExecutionTimes;
    IdentityExactly(e, n);
    if ExecutionIdentity(e).Ok? {
      TimesExactly(calendar, e, ExecutionIdentity(e).value, n);
    }
  }

  /** The fields of an execution that its identity pass sets. */
  predicate IdentitySpelled(e: Execution, n: Execution) {
    && UuidOf(e.runId, n.runId) && Trims(e.toolCallId, n.toolCallId) && TokenOf(e.toolName, n.toolName)
    && TokenOf(e.operation, n.operation) && DigestOf(e.argumentsDigest, n.argumentsDigest)
    && n.outcome == StripLower(e.outcome) && n.outcome in ["executed", "denied", "skipped", "failed"]
  }

  predicate SameIdentity(a: Execution, b: Execution) {
    && a.runId == b.runId && a.toolCallId == b.toolCallId && a.toolName == b.toolName && a.operation == b.operation
    && a.argumentsDigest == b.argumentsDigest && a.outcome == b.outcome
  }

  predicate SameTimes(a: Execution, b: Execution) {
    && a.resultDigest == b.resultDigest && a.startedAt == b.startedAt && a.completedAt == b.completedAt
    && a.durationMs == b.durationMs && a.teeAttestation == b.teeAttestation
  }

  lemma IdentityExactly(e: Execution, n: Execution)
    ensures ExecutionIdentity(e).Ok? && SameIdentity(n, ExecutionIdentity(e).value) <==> IdentitySpelled(e, n)
    ensures ExecutionIdentity(e).Ok? ==> SameTimes(ExecutionIdentity(e).value, e)
  {
    hide Strip, StripLower, IsHex64, IsUuid, IsScopeToken;
  }

  lemma TimesExactly(calendar: Calendar, e: Execution, identity: Execution, n: Execution)
    requires SameTimes(identity, e)
    ensures ExecutionTimes(calendar, identity) == Ok(n) <==>
            && SameIdentity(n, identity) && OptDigestOf(e.resultDigest, n.resultDigest)
            && StampOf(calendar, e.startedAt, n.startedAt) && StampOf(calendar, e.completedAt, n.completedAt)
            && n.durationMs == e.durationMs && (n.durationMs.Some? ==> n.durationMs.value >= 0)
            && OptDigestOrDropped(e.teeAttestation, n.teeAttestation)
  {
    hide Strip, IsHex64;
  }

  // ----- The whole receipt

  predicate EnvelopeSpelled(calendar: Calendar, r: Receipt, n: Receipt) {
    && r.schemaVersion in [0, 1] && n.schemaVersion == 1
    && Strip(r.kind) in ["", "paybond.agent_receipt_v1"] && n.kind == "paybond.agent_receipt_v1"
    && Strip(r.receiptVersion) in ["", "1"] && n.receiptVersion == "1"
    && n.scope == StripLower(r.scope) && n.scope in ["action", "intent_terminal"]
    && n.receiptId == StripLower(r.receiptId) && n.receiptId != ""
    && Trims(r.tenantId, n.tenantId) && StampOf(calendar, r.issuedAt, n.issuedAt)
    && n.signingAlgorithm == (if StripLower(r.signingAlgorithm) == "" then "ed25519-sha256-json-v1"
                              else StripLower(r.signingAlgorithm))
    && n.messageDigestHex == StripLower(r.messageDigestHex) && n.publicKeyHex == StripLower(r.publicKeyHex)
    && n.signatureHex == StripLower(r.signatureHex)
  }

  /** Entry i is the first mandate attestation with this digest. */
  predicate FirstMandate(s: seq<Attestation>, digest: string, i: nat) {
    && i < |s| && s[i].kind == "agent_mandate_v1" && s[i].digest == digest
    && forall j | 0 <= j < i :: !(s[j].kind == "agent_mandate_v1" && s[j].digest == digest)
  }

  /** A mandate digest is attested, by the mandate reference where one is given. */
  predicate MandateTied(a: Authorization, s: seq<Attestation>) {
    a.mandateDigest.Some? ==>
      exists i | 0 <= i < |s| ::
        && FirstMandate(s, a.mandateDigest.value, i)
        && (a.mandateReferenceId.Some? ==> s[i].referenceId == a.mandateReferenceId)
  }

  predicate CoreSpelled(calendar: Calendar, r: Receipt, scope: string, n: Receipt) {
    && AuthorizationSpelled(calendar, r.authorization, n.authorization) && ReferencesSpelled(r.references, n.references)
    && AttestationsSpelled(r.attestations, n.attestations) && MandateTied(n.authorization, n.attestations)
    && OutcomeSpelled(r.outcome, scope, n.outcome)
  }

  predicate PartsSpelled(calendar: Calendar, r: Receipt, scope: string, n: Receipt) {
    && (if scope == "action" then
          r.execution.Some? && n.execution.Some? && ExecutionSpelled(calendar, r.execution.value, n.execution.value)
        else n.execution == None)
    && (if r.merchant.None? then n.merchant == None
        else n.merchant.Some? && MerchantSpelled(r.merchant.value, n.merchant.value))
    && (if r.evidence.None? then n.evidence == None
        else n.evidence.Some? && EvidenceSpelled(r.evidence.value, n.evidence.value))
    && (if r.payment.None? then n.payment == None
        else n.payment.Some? && PaymentSpelled(r.payment.value, n.payment.value))
    && (if r.continuity.None? then n.continuity == None
        else n.continuity.Some? && ContinuitySpelled(r.continuity.value, n.execution, n.continuity.value))
    && (if r.operatorAttestation.None? then n.operatorAttestation == None
        else n.operatorAttestation.Some?
             && OperatorSpelled(r.operatorAttestation.value, n.operatorAttestation.value))
  }

  /** The receipt id is the hash of intent and tool call for actions, and the intent id for terminal receipts. */
  predicate IdDerived(hash: Hash, n: Receipt) {
    if n.scope == "action" then
      && n.execution.Some?
      && n.receiptId == Hex(hash(Utf8(n.references.intentId + ['\0'] + n.execution.value.toolCallId)))
    else n.receiptId == n.references.intentId
  }

  predicate Spelled(hash: Hash, calendar: Calendar, r: Receipt, n: Receipt) {
    && EnvelopeSpelled(calendar, r, n) && CoreSpelled(calendar, r, n.scope, n) && PartsSpelled(calendar, r, n.scope, n)
    && IdDerived(hash, n)
  }

  lemma EnvelopeExactly(calendar: Calendar, r: Receipt, n: Receipt)
    ensures Envelope(calendar, r).Ok? && SameEnvelope(n, Envelope(calendar, r).value)
            <==> EnvelopeSpelled(calendar, r, n)
    ensures Envelope(calendar, r).Ok? ==> SameSections(Envelope(calendar, r).value, r)
  {
    hide Strip, StripLower;
  }

  /** What the envelope pass leaves alone. */
  predicate SameSections(a: Receipt, b: Receipt) {
    && a.authorization == b.authorization && a.execution == b.execution && a.merchant == b.merchant
    && a.evidence == b.evidence && a.payment == b.payment && a.outcome == b.outcome && a.references == b.references
    && a.attestations == b.attestations && a.continuity == b.continuity
    && a.operatorAttestation == b.operatorAttestation
  }

  predicate SameResults(a: Receipt, b: Receipt) {
    && a.authorization == b.authorization && a.references == b.references && a.attestations == b.attestations
    && a.outcome == b.outcome
  }

  lemma {:induction false} MatchingIsFirst(digest: string, s: seq<Attestation>)
    requires forall i | 0 <= i < |s| :: Strip(s[i].kind) == s[i].kind && StripLower(s[i].digest) == s[i].digest
    ensures MatchingAttestation(digest, s).Some? <==> exists i | 0 <= i < |s| :: FirstMandate(s, digest, i)
    ensures forall i | 0 <= i < |s| && FirstMandate(s, digest, i) :: MatchingAttestation(digest, s) == Some(s[i])
  {
    hide Strip, StripLower;
    if s != [] {
      var tail := s[1..];
      MatchingIsFirst(digest, tail);
      FirstMandateCons(digest, s);
    }
  }

  lemma FirstMandateCons(digest: string, s: seq<Attestation>)
    requires s != []
    ensures FirstMandate(s, digest, 0) <==> s[0].kind == "agent_mandate_v1" && s[0].digest == digest
    ensures !FirstMandate(s, digest, 0) ==>
              forall i | 0 <= i < |s[1..]| :: FirstMandate(s[1..], digest, i) <==> FirstMandate(s, digest, i + 1)
    ensures FirstMandate(s, digest, 0) ==> forall i | 1 <= i < |s| :: !FirstMandate(s, digest, i)
    ensures forall i | 1 <= i < |s| :: s[i] == s[1..][i - 1]
  {
    if !FirstMandate(s, digest, 0) {
      forall i | 0 <= i < |s[1..]| ensures FirstMandate(s[1..], digest, i) <==> FirstMandate(s, digest, i + 1) {
        assert s[1..][i] == s[i + 1];
        if FirstMandate(s, digest, i + 1) {
          forall j | 0 <= j < i ensures !(s[1..][j].kind == "agent_mandate_v1" && s[1..][j].digest == digest) {
            assert s[1..][j] == s[j + 1];
          }
        }
        if FirstMandate(s[1..], digest, i) {
          forall j | 0 <= j < i + 1 ensures !(s[j].kind == "agent_mandate_v1" && s[j].digest == digest) {
            assert j > 0 ==> s[j] == s[1..][j - 1];
          }
        }
      }
    }
  }

  /** The consistency check on normalised sections. */
  lemma TiedExactly(calendar: Calendar, a: Authorization, n: Authorization, s: seq<Attestation>, t: seq<Attestation>)
    requires DetailsSpelled(calendar, a, n) && AttestationsSpelled(s, t)
    ensures MandateConsistent(n, t) <==> MandateTied(n, t)
  {
    hide Strip, StripLower, IsHex64, CodesSpelled, FirstMandate, MatchingAttestation;
    MandateFields(calendar, a, n);
    SpelledAttestations(s, t);
    EmptyDigest();
    if n.mandateDigest.Some? {
      MatchingIsFirst(n.mandateDigest.value, t);
      if exists i | 0 <= i < |t| :: FirstMandate(t, n.mandateDigest.value, i) {
        var i :| 0 <= i < |t| && FirstMandate(t, n.mandateDigest.value, i);
        OnlyFirst(t, n.mandateDigest.value, i);
      }
    }
  }

  lemma OnlyFirst(t: seq<Attestation>, digest: string, i: nat)
    requires FirstMandate(t, digest, i)
    ensures forall j | 0 <= j < |t| && FirstMandate(t, digest, j) :: j == i
  {
  }

  lemma MandateFields(calendar: Calendar, a: Authorization, n: Authorization)
    requires DetailsSpelled(calendar, a, n)
    ensures n.mandateDigest.Some? ==>
              && IsHex64(n.mandateDigest.value) && StripLower(n.mandateDigest.value) == n.mandateDigest.value != ""
    ensures n.mandateReferenceId.Some? ==>
              n.mandateDigest.Some? && Strip(n.mandateReferenceId.value) == n.mandateReferenceId.value != ""
  {
    hide Strip, StripLower, CodesSpelled;
    if n.mandateDigest.Some? {
      FoldTwice(a.mandateDigest.value);
      EmptyDigest();
    }
    if n.mandateReferenceId.Some? {
      StripTwice(a.mandateReferenceId.value);
    }
  }

  lemma SpelledAttestations(s: seq<Attestation>, t: seq<Attestation>)
    requires AttestationsSpelled(s, t)
    ensures forall i | 0 <= i < |t| :: Strip(t[i].kind) == t[i].kind && StripLower(t[i].digest) == t[i].digest
    ensures forall i | 0 <= i < |t| :: Strip(OptText(t[i].referenceId)) == OptText(t[i].referenceId)
    ensures forall i | 0 <= i < |t| :: t[i].referenceId == None || t[i].referenceId.Some?
  {
    hide Strip, StripLower, IsScopeToken, IsHex64;
    EmptyDigest();
    forall i | 0 <= i < |t|
      ensures Strip(t[i].kind) == t[i].kind && StripLower(t[i].digest) == t[i].digest
      ensures Strip(OptText(t[i].referenceId)) == OptText(t[i].referenceId)
    {
      StripTwice(s[i].kind);
      FoldTwice(s[i].digest);
      StripTwice(OptText(s[i].referenceId));
    }
  }

  lemma CoreExactly(calendar: Calendar, r: Receipt, n: Receipt)
    ensures Core(calendar, r).Ok? && SameResults(n, Core(calendar, r).value) <==> CoreSpelled(calendar, r, r.scope, n)
  {
    hide NormalizeAuthorization, NormalizeReferences, NormalizeAttestations, NormalizeOutcome, MandateConsistent;
    hide PartiesSpelled, DetailsSpelled, ReferencesSpelled, AttestationsSpelled, OutcomeSpelled, MandateTied;
    AuthorizationExactly(calendar, r.authorization, n.authorization);
    ReferencesExactly(r.references, n.references);
    AttestationsExactly(r.attestations, n.attestations);
    OutcomeExactly(r.outcome, r.scope, n.outcome);
    if DetailsSpelled(calendar, r.authorization, n.authorization)
       && AttestationsSpelled(r.attestations, n.attestations) {
      TiedExactly(calendar, r.authorization, n.authorization, r.attestations, n.attestations);
    }
  }

  lemma OptMerchantExactly(o: Option<Merchant>, n: Option<Merchant>)
    ensures OptMerchant(o) == Ok(n) <==>
            if o.None? then n == None else n.Some? && MerchantSpelled(o.value, n.value)
  {
    hide NormalizeMerchant, MerchantSpelled;
    if o.Some? && n.Some? {
      MerchantExactly(o.value, n.value);
    }
  }

  lemma OptEvidenceExactly(o: Option<Evidence>, n: Option<Evidence>)
    ensures OptEvidence(o) == Ok(n) <==>
            if o.None? then n == None else n.Some? && EvidenceSpelled(o.value, n.value)
  {
    hide NormalizeEvidence, EvidenceSpelled;
    if o.Some? && n.Some? {
      EvidenceExactly(o.value, n.value);
    }
  }

  lemma OptPaymentExactly(o: Option<Payment>, n: Option<Payment>)
    ensures OptPayment(o) == Ok(n) <==>
            if o.None? then n == None else n.Some? && PaymentSpelled(o.value, n.value)
  {
    hide NormalizePayment, PaymentSpelled;
    if o.Some? && n.Some? {
      PaymentExactly(o.value, n.value);
    }
  }

  lemma OptOperatorExactly(o: Option<OperatorAttestation>, n: Option<OperatorAttestation>)
    ensures OptOperator(o) == Ok(n) <==>
            if o.None? then n == None else n.Some? && OperatorSpelled(o.value, n.value)
  {
    hide NormalizeOperator, OperatorSpelled;
    if o.Some? && n.Some? {
      OperatorExactly(o.value, n.value);
    }
  }

  lemma OptContinuityExactly(o: Option<Continuity>, execution: Option<Execution>, n: Option<Continuity>)
    ensures OptContinuity(o, execution) == Ok(n) <==>
            if o.None? then n == None else n.Some? && ContinuitySpelled(o.value, execution, n.value)
  {
    hide NormalizeContinuity, ContinuitySpelled;
    if o.Some? && n.Some? {
      ContinuityExactly(o.value, execution, n.value);
    }
  }

  lemma OptExecutionExactly(calendar: Calendar, scope: string, o: Option<Execution>, n: Option<Execution>)
    ensures OptExecution(calendar, scope, o) == Ok(n) <==>
            if scope == "action" then o.Some? && n.Some? && ExecutionSpelled(calendar, o.value, n.value) else n == None
  {
    hide NormalizeExecution, ExecutionSpelled;
    if o.Some? && n.Some? {
      ExecutionExactly(calendar, o.value, n.value);
    }
  }

  lemma PartsExactly(calendar: Calendar, r: Receipt, n: Receipt)
    ensures Parts(calendar, r).Ok? && PartsEqual(n, Parts(calendar, r).value) <==> PartsSpelled(calendar, r, r.scope, n)
  {
    OptExecutionExactly(calendar, r.scope, r.execution, n.execution);
    OptMerchantExactly(r.merchant, n.merchant);
    OptEvidenceExactly(r.evidence, n.evidence);
    OptPaymentExactly(r.payment, n.payment);
    OptContinuityExactly(r.continuity, n.execution, n.continuity);
    OptOperatorExactly(r.operatorAttestation, n.operatorAttestation);
    hide OptExecution, OptMerchant, OptEvidence, OptPayment, OptContinuity, OptOperator;
    hide ExecutionSpelled, MerchantSpelled, EvidenceSpelled, PaymentSpelled, ContinuitySpelled, OperatorSpelled;
  }

  predicate PartsEqual(a: Receipt, b: Receipt) {
    && a.execution == b.execution && a.merchant == b.merchant && a.evidence == b.evidence && a.payment == b.payment
    && a.continuity == b.continuity && a.operatorAttestation == b.operatorAttestation
  }

  lemma PassesKeep(calendar: Calendar, r: Receipt)
    ensures Core(calendar, r).Ok? ==>
              var c := Core(calendar, r).value;
              && SameEnvelope(c, r) && c.execution == r.execution && c.merchant == r.merchant
              && c.evidence == r.evidence && c.payment == r.payment && c.continuity == r.continuity
              && c.operatorAttestation == r.operatorAttestation
    ensures Parts(calendar, r).Ok? ==>
              SameEnvelope(Parts(calendar, r).value, r) && SameResults(Parts(calendar, r).value, r)
  {
    hide NormalizeAuthorization, NormalizeReferences, NormalizeAttestations, NormalizeOutcome, MandateConsistent;
    hide OptExecution, OptMerchant, OptEvidence, OptPayment, OptContinuity, OptOperator;
  }

  /** A receipt is its envelope, its results and its parts. */
  lemma WholeReceipt(a: Receipt, b: Receipt)
    ensures a == b <==> SameEnvelope(a, b) && SameResults(a, b) && PartsEqual(a, b)
  {
  }

  lemma SameEnvelopeVia(n: Receipt, p: Receipt, e: Receipt)
    requires SameEnvelope(p, e)
    ensures SameEnvelope(n, p) <==> SameEnvelope(n, e)
    ensures p.scope == e.scope
  {
  }

  lemma SameResultsVia(n: Receipt, p: Receipt, c: Receipt)
    requires SameResults(p, c)
    ensures SameResults(n, p) <==> SameResults(n, c)
  {
  }

  lemma CoreSpelledFrom(calendar: Calendar, r: Receipt, e: Receipt, scope: string, n: Receipt)
    requires SameSections(e, r)
    ensures CoreSpelled(calendar, e, scope, n) == CoreSpelled(calendar, r, scope, n)
  {
    hide AuthorizationSpelled, ReferencesSpelled, AttestationsSpelled, OutcomeSpelled, MandateTied;
  }

  lemma PartsSpelledFrom(calendar: Calendar, r: Receipt, c: Receipt, scope: string, n: Receipt)
    requires c.execution == r.execution && c.merchant == r.merchant && c.evidence == r.evidence
             && c.payment == r.payment && c.continuity == r.continuity
             && c.operatorAttestation == r.operatorAttestation
    ensures PartsSpelled(calendar, c, scope, n) == PartsSpelled(calendar, r, scope, n)
  {
    hide ExecutionSpelled, MerchantSpelled, EvidenceSpelled, PaymentSpelled, ContinuitySpelled, OperatorSpelled;
  }

  lemma IdExactly(hash: Hash, calendar: Calendar, r: Receipt, n: Receipt)
    requires EnvelopeSpelled(calendar, r, n) && ReferencesSpelled(r.references, n.references)
    ensures ReceiptIdMatches(hash, n) <==> IdDerived(hash, n)
  {
    hide StripLower, IsUuid, IsHex64;
    FoldTwice(r.receiptId);
  }

  /** What the three passes give, apart from the check of the receipt id. */
  lemma PassesExactly(calendar: Calendar, r: Receipt, n: Receipt)
    ensures (&& Envelope(calendar, r).Ok? && Core(calendar, Envelope(calendar, r).value).Ok?
             && Parts(calendar, Core(calendar, Envelope(calendar, r).value).value)
                == Ok(n))
            <==> && EnvelopeSpelled(calendar, r, n) && CoreSpelled(calendar, r, n.scope, n)
                 && PartsSpelled(calendar, r, n.scope, n)
  {
    EnvelopeExactly(calendar, r, n);
    hide Envelope, Core, Parts, EnvelopeSpelled, CoreSpelled, PartsSpelled, SameResults, PartsEqual;
    if Envelope(calendar, r).Ok? {
      var e := Envelope(calendar, r).value;
      CoreExactly(calendar, e, n);
      PassesKeep(calendar, e);
      CoreSpelledFrom(calendar, r, e, e.scope, n);
      if Core(calendar, e).Ok? {
        var c := Core(calendar, e).value;
        PartsExactly(calendar, c, n);
        PassesKeep(calendar, c);
        PartsSpelledFrom(calendar, r, c, c.scope, n);
        if Parts(calendar, c).Ok? {
          var p := Parts(calendar, c).value;
          WholeReceipt(n, p);
          SameEnvelopeVia(n, p, c);
          SameEnvelopeVia(n, c, e);
          SameResultsVia(n, p, c);
        }
      }
    }
  }

  /** Normalisation gives `n` if and only if every field of `n` is the respelling of the same field of `r`. */
  lemma NormalizedExactly(hash: Hash, calendar: Calendar, r: Receipt, n: Receipt)
    ensures Normalize(hash, calendar, r) == Ok(n) <==> Spelled(hash, calendar, r, n)
  {
    PassesExactly(calendar, r, n);
    hide Envelope, Core, Parts, EnvelopeSpelled, PartsSpelled, ReceiptIdMatches, IdDerived;
    hide AuthorizationSpelled, AttestationsSpelled, MandateTied, OutcomeSpelled, ReferencesSpelled;
    if EnvelopeSpelled(calendar, r, n) && CoreSpelled(calendar, r, n.scope, n) {
      IdExactly(hash, calendar, r, n);
    }
  }
}
