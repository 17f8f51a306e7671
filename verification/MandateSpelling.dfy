/**
  What mandates mean: normalisation field by field, exactly when a signed mandate is accepted, and what a JSON reader
  finds in the signed bytes. The relations mention none of the section normalisers and none of the check functions.
 */
module MandateSpelling {
  import opened Basics
  import opened Text
  import opened Ordering
  import opened Time
  import opened Json
  import opened JsonReader
  import opened GoEscape
  import opened Mandate

  // ----- Sections

  predicate AuthorizationSpelled(a: Authorization, n: Authorization) {
    && n.kind == StripLower(a.kind) && n.tenantId == Strip(a.tenantId) && IsTenantId(n.tenantId)
    && n.principalSubject == Strip(a.principalSubject) && n.principalType == StripLower(a.principalType)
    && (|| (n.kind == "principal" && n.principalSubject != ""
            && (n.principalType == "" || IsScopeToken(n.principalType)))
        || (n.kind == "tenant" && n.principalSubject == "" && n.principalType == ""))
  }

  predicate AgentSpelled(a: Agent, n: Agent) {
    && n.subject == Strip(a.subject) && n.subject != "" && n.issuer == Strip(a.issuer) && n.keyId == Strip(a.keyId)
    && n.displayName == Strip(a.displayName)
  }

  predicate AllAccepted(accept: string -> bool, raw: seq<string>) {
    forall i | 0 <= i < |raw| :: accept(StripLower(raw[i]))
  }

  /** Some entry folds to `x`. */
  predicate FoldsTo(raw: seq<string>, x: string) {
    exists i | 0 <= i < |raw| :: StripLower(raw[i]) == x
  }

  /** `n` holds the folded entries and no others. */
  predicate FoldedEntriesOf(raw: seq<string>, n: seq<string>) {
    && (forall i | 0 <= i < |raw| :: StripLower(raw[i]) in n)
    && (forall j | 0 <= j < |n| :: FoldsTo(raw, n[j]))
  }

  /** The folded entries, all acceptable, each once and ascending by code point. */
  predicate TokensSpelled(accept: string -> bool, raw: seq<string>, n: seq<string>) {
    && AllAccepted(accept, raw) && FoldedEntriesOf(raw, n)
    && (forall j, k | 0 <= j < k < |n| :: n[j] != n[k] && StringLeq(n[j], n[k]))
  }

  predicate SpendSpelled(s: SpendCeiling, n: SpendCeiling) {
    n.amountMinor == s.amountMinor > 0 && n.currency == StripLower(s.currency) && IsCurrency(n.currency)
  }

  predicate SettlementSpelled(s: Settlement, n: Settlement) {
    && n.defaultRail == StripLower(s.defaultRail) && n.defaultRail in n.allowedRails
    && TokensSpelled(IsListedRail, s.allowedRails, n.allowedRails)
  }

  predicate IsListedRail(s: string) {
    s in ["stripe_connect", "stripe_ach_debit", "stripe_mpp", "adyen_manual_capture", "x402_usdc_base"]
  }

  predicate ConstraintSpelled(c: Constraint, n: Constraint) {
    && n.kind == StripLower(c.kind) && n.kind in ["predicate", "policy"] && n.id == Strip(c.id)
    && n.version == Strip(c.version) && n.digestHex == StripLower(c.digestHex) && n.uri == Strip(c.uri)
    && (n.digestHex == "" || IsHex64(n.digestHex)) && !(n.id == "" && n.uri == "" && n.digestHex == "")
  }

  predicate ExpirySpelled(calendar: Calendar, text: string, n: string) {
    Strip(text) != "" && calendar.parse(Strip(text)).Some? && n == calendar.Printed(Strip(text))
  }

  predicate PartiesSpelled(m: Mandate, n: Mandate) {
    && m.schemaVersion in [0, 1] && n.schemaVersion == 1
    && Strip(m.kind) in ["", "paybond.agent_mandate_v1"] && n.kind == "paybond.agent_mandate_v1"
    && AuthorizationSpelled(m.authorization, n.authorization) && AgentSpelled(m.agent, n.agent)
    && TokensSpelled(IsScopeToken, m.allowedActions, n.allowedActions)
    && TokensSpelled(IsScopeToken, m.allowedTools, n.allowedTools)
    && |m.allowedActions| + |m.allowedTools| > 0
  }

  predicate TermsSpelled(calendar: Calendar, m: Mandate, n: Mandate) {
    && SpendSpelled(m.spendCeiling, n.spendCeiling) && SettlementSpelled(m.settlement, n.settlement)
    && ConstraintSpelled(m.constraint, n.constraint) && ExpirySpelled(calendar, m.expiresAt, n.expiresAt)
    && n.nonce == Strip(m.nonce) && 1 <= |n.nonce| <= 256
    && n.humanPresence == StripLower(m.humanPresence)
    && n.humanPresence in ["human_present", "human_not_present"]
  }

  /** `n` is `m` with every field respelled. */
  predicate Spelled(calendar: Calendar, m: Mandate, n: Mandate) {
    PartiesSpelled(m, n) && TermsSpelled(calendar, m, n)
  }

  // ----- Normalisation gives the respelling and nothing else

  lemma SmallSectionsExactly(a: Authorization, a': Authorization, b: Agent, b': Agent, s: SpendCeiling,
                             s': SpendCeiling, c: Constraint, c': Constraint)
    ensures NormalizeAuthorization(a) == Ok(a') <==> AuthorizationSpelled(a, a')
    ensures NormalizeAgent(b) == Ok(b') <==> AgentSpelled(b, b')
    ensures NormalizeSpend(s) == Ok(s') <==> SpendSpelled(s, s')
    ensures NormalizeConstraint(c) == Ok(c') <==> ConstraintSpelled(c, c')
  {
    hide Strip, StripLower, IsTenantId, IsScopeToken, IsCurrency, IsHex64;
  }

  lemma FoldedIn(raw: seq<string>, x: string)
    ensures x in FoldAll(raw) <==> FoldsTo(raw, x)
  {
    hide StripLower;
    var folded := FoldAll(raw);
    if x in folded {
      var i :| 0 <= i < |folded| && folded[i] == x;
      assert StripLower(raw[i]) == x;
    }
    if i :| 0 <= i < |raw| && StripLower(raw[i]) == x {
      assert folded[i] == x;
    }
  }

  lemma Folds(raw: seq<string>, i: nat)
    requires i < |raw|
    ensures FoldsTo(raw, StripLower(raw[i]))
  {
  }

  lemma SameIsFolded(raw: seq<string>, n: seq<string>)
    requires forall x :: x in n <==> x in FoldAll(raw)
    ensures FoldedEntriesOf(raw, n)
  {
    hide StripLower, FoldAll, FoldsTo;
    forall i | 0 <= i < |raw| ensures StripLower(raw[i]) in n {
      Folds(raw, i);
      FoldedIn(raw, StripLower(raw[i]));
    }
    forall j | 0 <= j < |n| ensures FoldsTo(raw, n[j]) {
      FoldedIn(raw, n[j]);
    }
  }

  lemma FoldedIsSame(raw: seq<string>, n: seq<string>)
    requires FoldedEntriesOf(raw, n)
    ensures forall x :: x in n <==> x in FoldAll(raw)
  {
    hide StripLower, FoldAll, FoldsTo;
    forall x ensures x in n <==> x in FoldAll(raw) {
      FoldedIn(raw, x);
      if x in n {
        var j :| 0 <= j < |n| && n[j] == x;
      }
    }
  }

  /** The accepted token list is the strictly ascending list of the folded entries. */
  lemma TokensExactly(accept: string -> bool, raw: seq<string>, n: seq<string>)
    ensures TokenSet(accept, raw) == Ok(n) <==> TokensSpelled(accept, raw, n)
  {
    hide StripLower, StringLeq, Sort, Dedupe, FoldedEntriesOf;
    if TokenSet(accept, raw) == Ok(n) {
      TokenSetOutput(accept, raw);
      SameIsFolded(raw, n);
    } else if TokensSpelled(accept, raw, n) {
      TokenSetOutput(accept, raw);
      FoldedIsSame(raw, n);
      StrictlySortedUnique(TokenSet(accept, raw).value, n);
    }
  }

  lemma NoTokens(accept: string -> bool, raw: seq<string>)
    requires TokenSet(accept, raw).Ok?
    ensures TokenSet(accept, raw).value == [] <==> raw == []
  {
    hide StripLower, StringLeq, Sort, Dedupe;
    hide TokenSet;
    var n := TokenSet(accept, raw).value;
    TokenSetOutput(accept, raw);
    if raw != [] {
      assert FoldAll(raw)[0] in n;
    }
    if n != [] {
      assert n[0] in FoldAll(raw);
    }
  }

  lemma AcceptedAlike(p: string -> bool, q: string -> bool, raw: seq<string>, n: seq<string>)
    requires forall s :: p(s) == q(s)
    ensures TokensSpelled(p, raw, n) <==> TokensSpelled(q, raw, n)
  {
    hide StripLower, StringLeq, FoldedEntriesOf;
  }

  lemma RailNames()
    ensures forall s :: (IsListedRail)(s) == (IsRail)(s)
  {
  }

  lemma RailsAlike(raw: seq<string>, n: seq<string>)
    ensures TokensSpelled(IsListedRail, raw, n) <==> TokensSpelled(IsRail, raw, n)
  {
    hide TokensSpelled;
    RailNames();
    AcceptedAlike(IsListedRail, IsRail, raw, n);
  }

  lemma NotARail()
    ensures !IsListedRail("")
  {
  }

  lemma SettlementExactly(s: Settlement, n: Settlement)
    ensures NormalizeSettlement(s) == Ok(n) <==> SettlementSpelled(s, n)
  {
    hide StripLower, TokenSet, TokensSpelled;
    RailsAlike(s.allowedRails, n.allowedRails);
    TokensExactly(IsRail, s.allowedRails, n.allowedRails);
    if SettlementSpelled(s, n) {
      RailIsNotBlank(s.allowedRails, n.allowedRails, n.defaultRail);
    }
  }

  lemma RailIsNotBlank(raw: seq<string>, n: seq<string>, rail: string)
    requires TokensSpelled(IsListedRail, raw, n) && rail in n
    ensures rail != ""
  {
    hide StripLower, StringLeq;
    NotARail();
    var j :| 0 <= j < |n| && n[j] == rail;
    assert FoldsTo(raw, n[j]);
    var i :| 0 <= i < |raw| && StripLower(raw[i]) == n[j];
  }

  lemma PartiesExactly(m: Mandate, n: Mandate)
    ensures NormalizeParties(m).Ok? && SameParties(n, NormalizeParties(m).value) <==> PartiesSpelled(m, n)
  {
    hide Strip, TokenSet, TokensSpelled, NormalizeAuthorization, NormalizeAgent, NormalizeSpend, NormalizeConstraint,
      AuthorizationSpelled, AgentSpelled;
    SmallSectionsExactly(m.authorization, n.authorization, m.agent, n.agent, m.spendCeiling, n.spendCeiling,
                         m.constraint, n.constraint);
    TokensExactly(IsScopeToken, m.allowedActions, n.allowedActions);
    TokensExactly(IsScopeToken, m.allowedTools, n.allowedTools);
    if TokenSet(IsScopeToken, m.allowedActions).Ok? && TokenSet(IsScopeToken, m.allowedTools).Ok? {
      NoTokens(IsScopeToken, m.allowedActions);
      NoTokens(IsScopeToken, m.allowedTools);
    }
  }

  lemma TermsExactly(calendar: Calendar, m: Mandate, n: Mandate)
    ensures NormalizeTerms(calendar, m) == Ok(n) <==> TermsSpelled(calendar, m, n) && SameParties(n, m)
  {
    hide Strip, StripLower, NormalizeAuthorization, NormalizeAgent, NormalizeSpend, NormalizeConstraint,
      NormalizeSettlement, SettlementSpelled, SpendSpelled, ConstraintSpelled;
    SmallSectionsExactly(m.authorization, n.authorization, m.agent, n.agent, m.spendCeiling, n.spendCeiling,
                         m.constraint, n.constraint);
    SettlementExactly(m.settlement, n.settlement);
  }

  /** Normalisation succeeds with `n` exactly when `n` is the respelling of `m`. */
  lemma NormalizedExactly(calendar: Calendar, m: Mandate, n: Mandate)
    ensures Normalize(calendar, m) == Ok(n) <==> Spelled(calendar, m, n)
  {
    hide NormalizeParties, NormalizeTerms, PartiesSpelled, TermsSpelled;
    PartiesExactly(m, n);
    if NormalizeParties(m).Ok? {
      var parties := NormalizeParties(m).value;
      TermsExactly(calendar, parties, n);
      TermsUntouched(calendar, m, n);
    }
  }

  lemma TermsUntouched(calendar: Calendar, m: Mandate, n: Mandate)
    requires NormalizeParties(m).Ok?
    ensures TermsSpelled(calendar, NormalizeParties(m).value, n) <==> TermsSpelled(calendar, m, n)
  {
    hide TokenSet, NormalizeAuthorization, NormalizeAgent, TermsSpelled, Strip;
    var p := NormalizeParties(m).value;
    assert p.spendCeiling == m.spendCeiling && p.settlement == m.settlement && p.constraint == m.constraint;
    assert p.expiresAt == m.expiresAt && p.nonce == m.nonce && p.humanPresence == m.humanPresence;
    SameTerms(calendar, p, m, n);
  }

  lemma SameTerms(calendar: Calendar, p: Mandate, m: Mandate, n: Mandate)
    requires p.spendCeiling == m.spendCeiling && p.settlement == m.settlement && p.constraint == m.constraint
    requires p.expiresAt == m.expiresAt && p.nonce == m.nonce && p.humanPresence == m.humanPresence
    ensures TermsSpelled(calendar, p, n) <==> TermsSpelled(calendar, m, n)
  {
    hide Strip, StripLower, SettlementSpelled, SpendSpelled, ConstraintSpelled;
  }

  // ----- Acceptance

  /** Hexadecimal text of either case, holding a given number of octets. */
  predicate HexOctets(hex: string, length: nat) {
    FromHex(Lower(hex)).Some? && |FromHex(Lower(hex)).value| == length
  }

  /** What an accepted signed mandate carries, for the normalised mandate `n`. */
  predicate Accepted(hash: Hash, scheme: SignatureScheme, calendar: Calendar, s: SignedMandate, now: int, n: Mandate) {
    var digest := hash(SigningBytes(n));
    && calendar.parse(Strip(n.expiresAt)).Some? && now < calendar.parse(Strip(n.expiresAt)).value
    && Strip(s.algorithm) == "ed25519-sha256-json-v1"
    && StripLower(s.messageDigestHex) == Hex(digest)
    && HexOctets(s.publicKeyHex, 32) && HexOctets(s.signatureHex, 64)
    && scheme.verify(FromHex(Lower(s.publicKeyHex)).value, FromHex(Lower(s.signatureHex)).value, digest)
  }

  /**
    A signed mandate verifies as `n` exactly when `n` is its respelling, the time is before the expiry of `n`, and
    algorithm, digest, key and signature are those of the signed bytes of `n`.
   */
  lemma AcceptedExactly(hash: Hash, scheme: SignatureScheme, calendar: Calendar, s: SignedMandate, now: int, n: Mandate)
    ensures Verify(hash, scheme, calendar, s, now) == Ok(n)
            <==> Spelled(calendar, s.mandate, n) && Accepted(hash, scheme, calendar, s, now, n)
  {
    hide Normalize, Spelled, Strip, StripLower, Hex, FromHex, Lower, SigningBytes;
    NormalizedExactly(calendar, s.mandate, n);
  }

  // ----- The signed bytes

  /** The members of a normalised mandate under their names, in the order they are signed. */
  function WireForm(m: Mandate): Json {
    Obj([("schema_version", Int(m.schemaVersion)),
         ("kind", Str(m.kind)),
         ("authorization", Obj([("kind", Str(m.authorization.kind)),
                                ("tenant_id", Str(m.authorization.tenantId)),
                                ("principal_subject", Str(m.authorization.principalSubject)),
                                ("principal_type", Str(m.authorization.principalType))])),
         ("agent", Obj([("subject", Str(m.agent.subject)),
                        ("issuer", Str(m.agent.issuer)),
                        ("key_id", Str(m.agent.keyId)),
                        ("display_name", Str(m.agent.displayName))])),
         ("allowed_actions", Arr(MapSeq(AsText, m.allowedActions))),
         ("allowed_tools", Arr(MapSeq(AsText, m.allowedTools))),
         ("spend_ceiling", Obj([("amount_minor", Int(m.spendCeiling.amountMinor)),
                                ("currency", Str(m.spendCeiling.currency))])),
         ("settlement", Obj([("default_rail", Str(m.settlement.defaultRail)),
                             ("allowed_rails", Arr(MapSeq(AsText, m.settlement.allowedRails)))])),
         ("constraint", Obj([("kind", Str(m.constraint.kind)),
                             ("id", Str(m.constraint.id)),
                             ("version", Str(m.constraint.version)),
                             ("digest_sha256_hex", Str(m.constraint.digestHex)),
                             ("uri", Str(m.constraint.uri))])),
         ("expires_at", Str(m.expiresAt)),
         ("nonce", Str(m.nonce)),
         ("human_presence_mode", Str(m.humanPresence))])
  }

  function AsText(s: string): Json {
    Str(s)
  }

  lemma TextList(s: seq<string>)
    ensures Strings(s) == Arr(MapSeq(AsText, s))
  {
    assert Strings(s).items == MapSeq(AsText, s);
  }

  lemma WireSections(m: Mandate)
    ensures MandateJson(m) == WireForm(m)
  {
    hide Strings, MapSeq;
    TextList(m.allowedActions);
    TextList(m.allowedTools);
    TextList(m.settlement.allowedRails);
  }

  /** A JSON reader finds every member of the mandate in the signed bytes under its name. */
  lemma SignedBytesRead(m: Mandate)
    ensures ReadBytes(SigningBytes(m)) == Some(WireForm(m))
  {
    hide MandateJson, WireForm, ReadJson, GoJsonEscape, Print, Utf8, DecodeUtf8;
    Utf8RoundTrip(CanonicalText(m));
    GoTextIsJson(MandateJson(m));
    WireSections(m);
  }
}
