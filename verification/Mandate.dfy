/**
  Agent mandates: `normalize_agent_mandate_v1`, the canonical signing bytes, `sign_agent_mandate_v1`
  and `verify_signed_agent_mandate_v1`. A mandate is a record; an absent or wrongly typed field of the
  input dictionary is its reader's default (the empty string, zero or the empty list).
 */
module Mandate {
  import opened Basics
  import opened Text
  import opened Ordering
  import opened Json
  import opened GoEscape
  import opened Time

  const MANDATE_KIND := "paybond.agent_mandate_v1"
  const SIGNING_ALGORITHM := "ed25519-sha256-json-v1"

  datatype Authorization = Authorization(kind: string, tenantId: string, principalSubject: string,
                                         principalType: string)
  datatype Agent = Agent(subject: string, issuer: string, keyId: string, displayName: string)
  datatype SpendCeiling = SpendCeiling(amountMinor: int, currency: string)
  datatype Settlement = Settlement(defaultRail: string, allowedRails: seq<string>)
  datatype Constraint = Constraint(kind: string, id: string, version: string, digestHex: string, uri: string)

  datatype Mandate = Mandate(
    schemaVersion: int, kind: string, authorization: Authorization, agent: Agent,
    allowedActions: seq<string>, allowedTools: seq<string>, spendCeiling: SpendCeiling, settlement: Settlement,
    constraint: Constraint, expiresAt: string, nonce: string, humanPresence: string)

  // ----- Timestamps

  function NormalizeTimestamp(calendar: Calendar, text: string): Result<string> {
    if Strip(text) == "" || calendar.parse(Strip(text)).None? then Err(Malformed)
    else Ok(calendar.Printed(Strip(text)))
  }

  // ----- Scope and rail sets

  function Dedupe(s: seq<string>): seq<string> {
    if s == [] then []
    else
      var front := Dedupe(s[..|s| - 1]);
      if s[|s| - 1] in front then front else front + [s[|s| - 1]]
  }

  function FoldAll(s: seq<string>): (r: seq<string>)
    ensures |r| == |s| && forall i :: 0 <= i < |s| ==> r[i] == StripLower(s[i])
  {
    seq(|s|, i requires 0 <= i < |s| => StripLower(s[i]))
  }

  /** The sorted list without duplicates, or a failure when some entry is not acceptable. */
  function TokenSet(accept: string -> bool, raw: seq<string>): Result<seq<string>> {
    if forall i | 0 <= i < |raw| :: accept(StripLower(raw[i])) then Ok(Sort(StringLeq, Dedupe(FoldAll(raw))))
    else Err(Malformed)
  }

  /** The loop of `_normalize_scope_set` and `_normalize_allowed_rails`. */
  method NormalizeTokens(accept: string -> bool, raw: seq<string>) returns (r: Result<seq<string>>)
    ensures r == TokenSet(accept, raw)
  {
    hide StripLower, Dedupe, Sort, StringLeq;
    var seen: set<string> := {};
    var out: seq<string> := [];
    DedupeNone(raw);
    for k := 0 to |raw|
      invariant forall i | 0 <= i < k :: accept(StripLower(raw[i]))
      invariant out == Dedupe(FoldAll(raw[..k]))
      invariant forall x :: x in seen <==> x in out
    {
      var value := StripLower(raw[k]);
      if !accept(value) {
        return Err(Malformed);
      }
      DedupeStep(raw, k);
      if value !in seen {
        seen := seen + {value};
        out := out + [value];
      }
    }
    assert raw[..|raw|] == raw;
    return Ok(Sort(StringLeq, out));
  }

  lemma DedupeNone(raw: seq<string>)
    ensures Dedupe(FoldAll(raw[..0])) == []
  {
  }

  lemma DedupeStep(raw: seq<string>, k: nat)
    requires k < |raw|
    ensures var front := Dedupe(FoldAll(raw[..k]));
            Dedupe(FoldAll(raw[..k + 1])) == if StripLower(raw[k]) in front then front else front + [StripLower(raw[k])]
  {
    hide StripLower;
    var s := FoldAll(raw[..k + 1]);
    assert s[..|s| - 1] == FoldAll(raw[..k]);
  }

  lemma {:induction false} DedupeKeepsElements(s: seq<string>)
    ensures NoDuplicates(Dedupe(s))
    ensures forall x :: x in Dedupe(s) <==> x in s
  {
    if s != [] {
      DedupeKeepsElements(s[..|s| - 1]);
      assert s == s[..|s| - 1] + [s[|s| - 1]];
    }
  }

  ghost predicate StrictlySorted(s: seq<string>) {
    Sorted(StringLeq, s) && NoDuplicates(s)
  }

  /** The output lists each folded entry once, in strictly ascending order. */
  lemma TokenSetOutput(accept: string -> bool, raw: seq<string>)
    requires TokenSet(accept, raw).Ok?
    ensures StrictlySorted(TokenSet(accept, raw).value)
    ensures forall x :: x in TokenSet(accept, raw).value <==> x in FoldAll(raw)
  {
    hide StringLeq, Dedupe;
    var deduped, out := Dedupe(FoldAll(raw)), TokenSet(accept, raw).value;
    DedupeKeepsElements(FoldAll(raw));
    StringOrder();
    SortSorts(StringLeq, deduped);
    SameElements(out, deduped);
    PermutedNoDuplicates(deduped, out);
  }

  lemma PermutedNoDuplicates(a: seq<string>, b: seq<string>)
    requires NoDuplicates(a) && multiset(a) == multiset(b)
    ensures NoDuplicates(b)
  {
    NoDuplicatesMultiset(a);
    forall i, j | 0 <= i < j < |b| ensures b[i] != b[j] {
      if b[i] == b[j] {
        TwiceIn(b, i, j);
      }
    }
  }

  /** Strictly sorted lists with the same elements are the same list. */
  lemma StrictlySortedUnique(a: seq<string>, b: seq<string>)
    requires StrictlySorted(a) && StrictlySorted(b)
    requires forall x :: x in a <==> x in b
    ensures a == b
  {
    hide StringLeq;
    NoDuplicatesMultiset(a);
    NoDuplicatesMultiset(b);
    assert (set x | x in a) == (set x | x in b);
    StringOrder();
    SortedUnique(StringLeq, a, b);
  }

  /** Only the set of folded entries matters: order, duplicates, case and surrounding space do not. */
  lemma TokenSetDependsOnSet(accept: string -> bool, raw: seq<string>, raw': seq<string>)
    requires forall x :: x in FoldAll(raw) <==> x in FoldAll(raw')
    ensures TokenSet(accept, raw) == TokenSet(accept, raw')
  {
    TokensAccepted(accept, raw);
    TokensAccepted(accept, raw');
    if TokenSet(accept, raw).Ok? {
      TokenSetOutput(accept, raw);
      TokenSetOutput(accept, raw');
      StrictlySortedUnique(TokenSet(accept, raw).value, TokenSet(accept, raw').value);
    }
  }

  lemma TokensAccepted(accept: string -> bool, raw: seq<string>)
    ensures TokenSet(accept, raw).Ok? <==> forall x :: x in FoldAll(raw) ==> accept(x)
  {
    hide StripLower, Sort;
    if forall x :: x in FoldAll(raw) ==> accept(x) {
      forall i | 0 <= i < |raw| ensures accept(StripLower(raw[i])) {
        assert FoldAll(raw)[i] in FoldAll(raw);
      }
    }
  }

  /** Normalising the output again changes nothing. */
  lemma TokenSetIdempotent(accept: string -> bool, raw: seq<string>)
    requires TokenSet(accept, raw).Ok?
    ensures TokenSet(accept, TokenSet(accept, raw).value) == TokenSet(accept, raw)
  {
    hide TokenSet;
    var out := TokenSet(accept, raw).value;
    TokenSetOutput(accept, raw);
    forall i | 0 <= i < |out| ensures FoldAll(out)[i] == out[i] {
      assert out[i] in FoldAll(raw);
      var j :| 0 <= j < |raw| && FoldAll(raw)[j] == out[i];
      StripLowerFolds(raw[j]);
      FoldedFixed(out[i]);
    }
    assert FoldAll(out) == out;
    TokenSetDependsOnSet(accept, raw, out);
  }

  // ----- Field validation

  /** `[a-z0-9][a-z0-9._-]*`, at most 256 characters. */
  predicate IsTenantId(s: string) {
    && 1 <= |s| <= 256 && IsLowerAlnum(s[0])
    && forall i :: 1 <= i < |s| ==> IsLowerAlnum(s[i]) || s[i] in "._-"
  }

  /** `[a-z0-9_]{3,16}` */
  predicate IsCurrency(s: string) {
    3 <= |s| <= 16 && forall i :: 0 <= i < |s| ==> IsLowerAlnum(s[i]) || s[i] == '_'
  }

  predicate IsRail(s: string) {
    || s == "stripe_connect" || s == "stripe_ach_debit" || s == "stripe_mpp"
    || s == "adyen_manual_capture" || s == "x402_usdc_base"
  }

  predicate AuthorizationAllowed(a: Authorization) {
    && IsTenantId(a.tenantId)
    && if a.kind == "principal" then
         a.principalSubject != "" && (a.principalType == "" || IsScopeToken(a.principalType))
       else
         a.kind == "tenant" && a.principalSubject == "" && a.principalType == ""
  }

  function NormalizeAuthorization(a: Authorization): Result<Authorization> {
    var n := Authorization(StripLower(a.kind), Strip(a.tenantId), Strip(a.principalSubject),
                           StripLower(a.principalType));
    if AuthorizationAllowed(n) then Ok(n) else Err(Malformed)
  }

  function NormalizeAgent(a: Agent): Result<Agent> {
    var n := Agent(Strip(a.subject), Strip(a.issuer), Strip(a.keyId), Strip(a.displayName));
    if n.subject != "" then Ok(n) else Err(Missing)
  }

  function NormalizeSpend(s: SpendCeiling): Result<SpendCeiling> {
    var n := s.(currency := StripLower(s.currency));
    if n.amountMinor <= 0 then Err(OutOfRange) else if IsCurrency(n.currency) then Ok(n) else Err(Malformed)
  }

  function NormalizeSettlement(s: Settlement): Result<Settlement> {
    var rails :- TokenSet(IsRail, s.allowedRails);
    var defaultRail := StripLower(s.defaultRail);
    if defaultRail == "" || rails == [] then Err(Missing)
    else if defaultRail in rails then Ok(Settlement(defaultRail, rails))
    else Err(Mismatch)
  }

  predicate ConstraintAllowed(c: Constraint) {
    && (c.kind == "predicate" || c.kind == "policy")
    && (c.digestHex == "" || IsHex64(c.digestHex))
    && (c.id != "" || c.uri != "" || c.digestHex != "")
  }

  function NormalizeConstraint(c: Constraint): Result<Constraint> {
    var n := Constraint(StripLower(c.kind), Strip(c.id), Strip(c.version), StripLower(c.digestHex), Strip(c.uri));
    if ConstraintAllowed(n) then Ok(n) else Err(Malformed)
  }

  predicate IsPresenceMode(s: string) {
    s == "human_present" || s == "human_not_present"
  }

  /** Version, kind, parties and scopes. */
  function NormalizeParties(m: Mandate): Result<Mandate> {
    var supported := m.schemaVersion == 0 || m.schemaVersion == 1;
    :- Require(supported, Unsupported);
    :- Require(Strip(m.kind) == "" || Strip(m.kind) == MANDATE_KIND, Unsupported);
    var authorization :- NormalizeAuthorization(m.authorization);
    var agent :- NormalizeAgent(m.agent);
    var actions :- TokenSet(IsScopeToken, m.allowedActions);
    var tools :- TokenSet(IsScopeToken, m.allowedTools);
    :- Require(actions != [] || tools != [], Missing);
    Ok(m.(schemaVersion := 1, kind := MANDATE_KIND, authorization := authorization, agent := agent,
          allowedActions := actions, allowedTools := tools))
  }

  /** Spend, settlement, constraint, expiry, nonce and presence. */
  function NormalizeTerms(calendar: Calendar, m: Mandate): Result<Mandate> {
    var spend :- NormalizeSpend(m.spendCeiling);
    var settlement :- NormalizeSettlement(m.settlement);
    var constraint :- NormalizeConstraint(m.constraint);
    :- Require(Strip(m.nonce) != "", Missing);
    :- Require(|Strip(m.nonce)| <= 256, TooLong);
    :- Require(IsPresenceMode(StripLower(m.humanPresence)), Malformed);
    var expiresAt :- NormalizeTimestamp(calendar, m.expiresAt);
    Ok(m.(spendCeiling := spend, settlement := settlement, constraint := constraint, expiresAt := expiresAt,
          nonce := Strip(m.nonce), humanPresence := StripLower(m.humanPresence)))
  }

  function Normalize(calendar: Calendar, m: Mandate): Result<Mandate> {
    var parties :- NormalizeParties(m);
    NormalizeTerms(calendar, parties)
  }

  // ----- Idempotence

  lemma PartsIdempotent(a: Authorization, b: Agent, c: SpendCeiling, d: Constraint)
    ensures NormalizeAuthorization(a).Ok? ==>
            NormalizeAuthorization(NormalizeAuthorization(a).value) == NormalizeAuthorization(a)
    ensures NormalizeAgent(b).Ok? ==> NormalizeAgent(NormalizeAgent(b).value) == NormalizeAgent(b)
    ensures NormalizeSpend(c).Ok? ==> NormalizeSpend(NormalizeSpend(c).value) == NormalizeSpend(c)
    ensures NormalizeConstraint(d).Ok? ==> NormalizeConstraint(NormalizeConstraint(d).value) == NormalizeConstraint(d)
  {
    hide Strip, StripLower, AuthorizationAllowed, ConstraintAllowed, IsCurrency;
    FoldTwice(a.kind);
    StripTwice(a.tenantId);
    StripTwice(a.principalSubject);
    FoldTwice(a.principalType);
    StripTwice(b.subject);
    StripTwice(b.issuer);
    StripTwice(b.keyId);
    StripTwice(b.displayName);
    FoldTwice(c.currency);
    FoldTwice(d.kind);
    StripTwice(d.id);
    StripTwice(d.version);
    FoldTwice(d.digestHex);
    StripTwice(d.uri);
  }

  lemma SettlementIdempotent(s: Settlement)
    requires NormalizeSettlement(s).Ok?
    ensures NormalizeSettlement(NormalizeSettlement(s).value) == NormalizeSettlement(s)
  {
    hide StripLower, TokenSet;
    FoldTwice(s.defaultRail);
    TokenSetIdempotent(IsRail, s.allowedRails);
  }

  lemma TimestampIdempotent(calendar: Calendar, text: string)
    requires calendar.Lawful() && NormalizeTimestamp(calendar, text).Ok?
    ensures NormalizeTimestamp(calendar, NormalizeTimestamp(calendar, text).value) == NormalizeTimestamp(calendar, text)
  {
    hide Strip;
    var micros := calendar.parse(Strip(text)).value;
    var printed := calendar.format(TruncateToSeconds(micros));
    assert printed != "" && Trimmed(printed) && calendar.parse(printed) == Some(TruncateToSeconds(micros));
    StripTrimmed(printed);
    TruncateTwice(micros);
  }

  lemma KindFixed()
    ensures Strip(MANDATE_KIND) == MANDATE_KIND
  {
    assert MANDATE_KIND[0] == 'p' && MANDATE_KIND[|MANDATE_KIND| - 1] == '1';
    StripTrimmed(MANDATE_KIND);
  }

  predicate SameParties(a: Mandate, b: Mandate) {
    && a.schemaVersion == b.schemaVersion && a.kind == b.kind && a.authorization == b.authorization
    && a.agent == b.agent && a.allowedActions == b.allowedActions && a.allowedTools == b.allowedTools
  }

  lemma PartiesIdempotent(m: Mandate, n: Mandate)
    requires NormalizeParties(m).Ok? && SameParties(n, NormalizeParties(m).value)
    ensures NormalizeParties(n) == Ok(n)
  {
    hide Strip, TokenSet, NormalizeAuthorization, NormalizeAgent, MANDATE_KIND;
    KindFixed();
    PartsIdempotent(m.authorization, m.agent, m.spendCeiling, m.constraint);
    TokenSetIdempotent(IsScopeToken, m.allowedActions);
    TokenSetIdempotent(IsScopeToken, m.allowedTools);
  }

  lemma TermsIdempotent(calendar: Calendar, m: Mandate)
    requires calendar.Lawful() && NormalizeTerms(calendar, m).Ok?
    ensures NormalizeTerms(calendar, NormalizeTerms(calendar, m).value) == NormalizeTerms(calendar, m)
    ensures SameParties(NormalizeTerms(calendar, m).value, m)
  {
    hide Strip, StripLower, NormalizeSpend, NormalizeSettlement, NormalizeConstraint, NormalizeTimestamp,
      IsPresenceMode;
    PartsIdempotent(m.authorization, m.agent, m.spendCeiling, m.constraint);
    SettlementIdempotent(m.settlement);
    StripTwice(m.nonce);
    FoldTwice(m.humanPresence);
    TimestampIdempotent(calendar, m.expiresAt);
  }

  /** Normalising a normalised mandate returns it unchanged. */
  lemma NormalizeIdempotent(calendar: Calendar, m: Mandate)
    requires calendar.Lawful() && Normalize(calendar, m).Ok?
    ensures Normalize(calendar, Normalize(calendar, m).value) == Normalize(calendar, m)
  {
    hide NormalizeParties, NormalizeTerms, SameParties;
    var parties := NormalizeParties(m).value;
    TermsIdempotent(calendar, parties);
    PartiesIdempotent(m, Normalize(calendar, m).value);
  }

  // ----- Canonical text

  function AuthorizationJson(a: Authorization): Json {
    Obj([("kind", Str(a.kind)), ("tenant_id", Str(a.tenantId)),
         ("principal_subject", Str(a.principalSubject)), ("principal_type", Str(a.principalType))])
  }

  function AgentJson(a: Agent): Json {
    Obj([("subject", Str(a.subject)), ("issuer", Str(a.issuer)), ("key_id", Str(a.keyId)),
         ("display_name", Str(a.displayName))])
  }

  function SpendJson(s: SpendCeiling): Json {
    Obj([("amount_minor", Int(s.amountMinor)), ("currency", Str(s.currency))])
  }

  function SettlementJson(s: Settlement): Json {
    Obj([("default_rail", Str(s.defaultRail)), ("allowed_rails", Strings(s.allowedRails))])
  }

  function ConstraintJson(c: Constraint): Json {
    Obj([("kind", Str(c.kind)), ("id", Str(c.id)), ("version", Str(c.version)),
         ("digest_sha256_hex", Str(c.digestHex)), ("uri", Str(c.uri))])
  }

  function MandateJson(m: Mandate): Json {
    Obj([("schema_version", Int(m.schemaVersion)), ("kind", Str(m.kind)),
         ("authorization", AuthorizationJson(m.authorization)), ("agent", AgentJson(m.agent)),
         ("allowed_actions", Strings(m.allowedActions)), ("allowed_tools", Strings(m.allowedTools)),
         ("spend_ceiling", SpendJson(m.spendCeiling)), ("settlement", SettlementJson(m.settlement)),
         ("constraint", ConstraintJson(m.constraint)), ("expires_at", Str(m.expiresAt)), ("nonce", Str(m.nonce)),
         ("human_presence_mode", Str(m.humanPresence))])
  }

  function CanonicalText(m: Mandate): string {
    GoJsonEscape(Print(false, MandateJson(m)))
  }

  function SigningBytes(m: Mandate): Bytes {
    Utf8(CanonicalText(m))
  }

  lemma AuthorizationJsonInjective(a: Authorization, b: Authorization)
    requires AuthorizationJson(a) == AuthorizationJson(b)
    ensures a == b
  {
    var f, g := AuthorizationJson(a).fields, AuthorizationJson(b).fields;
    assert f[0].1 == g[0].1 && f[1].1 == g[1].1 && f[2].1 == g[2].1 && f[3].1 == g[3].1;
  }

  lemma AgentJsonInjective(a: Agent, b: Agent)
    requires AgentJson(a) == AgentJson(b)
    ensures a == b
  {
    var f, g := AgentJson(a).fields, AgentJson(b).fields;
    assert f[0].1 == g[0].1 && f[1].1 == g[1].1 && f[2].1 == g[2].1 && f[3].1 == g[3].1;
  }

  lemma TermsJsonInjective(a: SpendCeiling, b: SpendCeiling, c: Settlement, d: Settlement)
    requires SpendJson(a) == SpendJson(b) && SettlementJson(c) == SettlementJson(d)
    ensures a == b && c == d
  {
    hide Strings;
    var f, g := SpendJson(a).fields, SpendJson(b).fields;
    assert f[0].1 == g[0].1 && f[1].1 == g[1].1;
    var p, q := SettlementJson(c).fields, SettlementJson(d).fields;
    assert p[0].1 == q[0].1 && p[1].1 == q[1].1;
    StringsInjective(c.allowedRails, d.allowedRails);
  }

  lemma ConstraintJsonInjective(a: Constraint, b: Constraint)
    requires ConstraintJson(a) == ConstraintJson(b)
    ensures a == b
  {
    var f, g := ConstraintJson(a).fields, ConstraintJson(b).fields;
    assert f[0].1 == g[0].1 && f[1].1 == g[1].1 && f[2].1 == g[2].1 && f[3].1 == g[3].1 && f[4].1 == g[4].1;
  }

  lemma MandateJsonInjective(a: Mandate, b: Mandate)
    requires MandateJson(a) == MandateJson(b)
    ensures a == b
  {
    hide AuthorizationJson, AgentJson, Strings, SpendJson, SettlementJson, ConstraintJson;
    var f, g := MandateJson(a).fields, MandateJson(b).fields;
    assert f[0].1 == g[0].1 && f[1].1 == g[1].1 && f[9].1 == g[9].1 && f[10].1 == g[10].1 && f[11].1 == g[11].1;
    assert f[2].1 == g[2].1 && f[3].1 == g[3].1 && f[4].1 == g[4].1 && f[5].1 == g[5].1;
    assert f[6].1 == g[6].1 && f[7].1 == g[7].1 && f[8].1 == g[8].1;
    AuthorizationJsonInjective(a.authorization, b.authorization);
    AgentJsonInjective(a.agent, b.agent);
    StringsInjective(a.allowedActions, b.allowedActions);
    StringsInjective(a.allowedTools, b.allowedTools);
    TermsJsonInjective(a.spendCeiling, b.spendCeiling, a.settlement, b.settlement);
    ConstraintJsonInjective(a.constraint, b.constraint);
  }

  /** Two mandates have the same signing bytes exactly when they are the same mandate. */
  lemma SigningBytesUnambiguous(a: Mandate, b: Mandate)
    ensures SigningBytes(a) == SigningBytes(b) <==> a == b
  {
    hide MandateJson, GoJsonEscape, Print, Utf8;
    if SigningBytes(a) == SigningBytes(b) {
      Utf8Injective(CanonicalText(a), CanonicalText(b));
      GoTextInjective(MandateJson(a), MandateJson(b));
      MandateJsonInjective(a, b);
    }
  }

  // ----- Signing and verifying

  datatype SignedMandate = SignedMandate(
    mandate: Mandate, algorithm: string, messageDigestHex: string, publicKeyHex: string, signatureHex: string)

  function DigestOf(hash: Hash, m: Mandate): Digest {
    hash(SigningBytes(m))
  }

  function Sign(hash: Hash, scheme: SignatureScheme, calendar: Calendar, seed: Bytes,
                m: Mandate): Result<SignedMandate> {
    var seedLength := |seed|;
    :- Require(seedLength == 32, Malformed);
    var n :- Normalize(calendar, m);
    var digest := DigestOf(hash, n);
    Ok(SignedMandate(n, SIGNING_ALGORITHM, Hex(digest), Hex(scheme.publicKey(seed)), Hex(scheme.sign(seed, digest))))
  }

  /** `bytes.fromhex` on text of either case, of a required length. */
  function KeyBytes(hex: string, length: nat): (r: Result<Bytes>)
    ensures r.Ok? ==> |r.value| == length
  {
    var data := FromHex(Lower(hex));
    if data.None? || |data.value| != length then Err(Malformed) else Ok(data.value)
  }

  function CheckMandateSignature(scheme: SignatureScheme, s: SignedMandate, digest: Digest): Result<()> {
    var publicKey :- KeyBytes(s.publicKeyHex, 32);
    var signature :- KeyBytes(s.signatureHex, 64);
    :- Require(scheme.verify(publicKey, signature, digest), BadSignature);
    Ok(())
  }

  function Verify(hash: Hash, scheme: SignatureScheme, calendar: Calendar, s: SignedMandate,
                  nowMicros: int): Result<Mandate> {
    var n :- Normalize(calendar, s.mandate);
    var expiry := calendar.parse(Strip(n.expiresAt));
    :- Require(expiry.Some?, Malformed);
    :- Require(nowMicros < expiry.value, Expired);
    :- Require(Strip(s.algorithm) == SIGNING_ALGORITHM, Unsupported);
    :- Require(StripLower(s.messageDigestHex) == Hex(DigestOf(hash, n)), Mismatch);
    var _ :- CheckMandateSignature(scheme, s, DigestOf(hash, n));
    Ok(n)
  }

  lemma KeyBytesOfHex(data: Bytes)
    ensures KeyBytes(Hex(data), |data|) == Ok(data)
  {
    HexFolded(Hex(data));
    assert Lower(Hex(data)) == Hex(data);
    FromHexRoundTrip(data);
  }

  lemma SignedSignatureChecks(scheme: SignatureScheme, s: SignedMandate, seed: Bytes, digest: Digest)
    requires scheme.Correct() && |seed| == 32
    requires s.publicKeyHex == Hex(scheme.publicKey(seed)) && s.signatureHex == Hex(scheme.sign(seed, digest))
    ensures CheckMandateSignature(scheme, s, digest) == Ok(())
  {
    hide KeyBytes, Hex;
    KeyBytesOfHex(scheme.publicKey(seed));
    KeyBytesOfHex(scheme.sign(seed, digest));
    assert scheme.verify(scheme.publicKey(seed), scheme.sign(seed, digest), digest);
  }

  lemma AlgorithmFixed()
    ensures Strip(SIGNING_ALGORITHM) == SIGNING_ALGORITHM
  {
    assert SIGNING_ALGORITHM[0] == 'e' && SIGNING_ALGORITHM[|SIGNING_ALGORITHM| - 1] == '1';
    StripTrimmed(SIGNING_ALGORITHM);
  }

  lemma NormalizedExpiry(calendar: Calendar, m: Mandate)
    requires calendar.Lawful() && Normalize(calendar, m).Ok?
    ensures calendar.parse(Strip(m.expiresAt)).Some?
    ensures calendar.parse(Strip(Normalize(calendar, m).value.expiresAt))
            == Some(TruncateToSeconds(calendar.parse(Strip(m.expiresAt)).value))
  {
    hide NormalizeSpend, NormalizeSettlement, NormalizeConstraint, Strip, StripLower, IsPresenceMode, MANDATE_KIND,
      TokenSet;
    var parties := NormalizeParties(m).value;
    assert NormalizeTimestamp(calendar, m.expiresAt) == Ok(Normalize(calendar, m).value.expiresAt);
    var micros := calendar.parse(Strip(m.expiresAt)).value;
    var printed := calendar.format(TruncateToSeconds(micros));
    assert Trimmed(printed) && calendar.parse(printed) == Some(TruncateToSeconds(micros));
    StripTrimmed(printed);
  }

  /** What a seed signs verifies at exactly the instants before the expiry truncated to seconds. */
  lemma SignedVerifiesUntilExpiry(hash: Hash, scheme: SignatureScheme, calendar: Calendar, seed: Bytes, m: Mandate,
                                  nowMicros: int)
    requires calendar.Lawful() && scheme.Correct()
    requires Sign(hash, scheme, calendar, seed, m).Ok?
    ensures calendar.parse(Strip(m.expiresAt)).Some?
    ensures Verify(hash, scheme, calendar, Sign(hash, scheme, calendar, seed, m).value, nowMicros).Ok?
            <==> nowMicros < TruncateToSeconds(calendar.parse(Strip(m.expiresAt)).value)
  {
    hide Normalize, Strip, StripLower, Hex, CheckMandateSignature, SIGNING_ALGORITHM, DigestOf;
    var s := Sign(hash, scheme, calendar, seed, m).value;
    NormalizeIdempotent(calendar, m);
    NormalizedExpiry(calendar, m);
    AlgorithmFixed();
    var digest := DigestOf(hash, s.mandate);
    HexFolded(Hex(digest));
    FoldedFixed(Hex(digest));
    SignedSignatureChecks(scheme, s, seed, digest);
  }

  /** Mandates that verify under one digest are the same mandate, or their signing bytes collide. */
  lemma VerifiedDigestBinds(hash: Hash, calendar: Calendar, scheme: SignatureScheme, s: SignedMandate, now: int,
                            m: Mandate,
                            scheme': SignatureScheme, s': SignedMandate, now': int, m': Mandate)
    requires Verify(hash, scheme, calendar, s, now) == Ok(m) && Verify(hash, scheme', calendar, s', now') == Ok(m')
    requires StripLower(s.messageDigestHex) == StripLower(s'.messageDigestHex)
    ensures m == m' || Collision(hash, SigningBytes(m), SigningBytes(m'))
  {
    hide Normalize, Strip, StripLower, Hex, CheckMandateSignature, SIGNING_ALGORITHM, SigningBytes;
    VerifiedDigest(hash, scheme, calendar, s, now, m);
    VerifiedDigest(hash, scheme', calendar, s', now', m');
    HexInjective(DigestOf(hash, m), DigestOf(hash, m'));
    SigningBytesUnambiguous(m, m');
  }

  lemma VerifiedDigest(hash: Hash, scheme: SignatureScheme, calendar: Calendar, s: SignedMandate, now: int, m: Mandate)
    requires Verify(hash, scheme, calendar, s, now) == Ok(m)
    ensures StripLower(s.messageDigestHex) == Hex(DigestOf(hash, m))
  {
    hide Normalize, Strip, StripLower, Hex, CheckMandateSignature, SIGNING_ALGORITHM, DigestOf;
  }

  /** Mandates that differ in the order, repetition, case or spacing of scopes and rails. */
  ghost predicate SameUpToSets(m: Mandate, m': Mandate) {
    && m' == m.(allowedActions := m'.allowedActions, allowedTools := m'.allowedTools, settlement := m'.settlement)
    && m'.settlement.defaultRail == m.settlement.defaultRail
    && (forall x :: x in FoldAll(m.allowedActions) <==> x in FoldAll(m'.allowedActions))
    && (forall x :: x in FoldAll(m.allowedTools) <==> x in FoldAll(m'.allowedTools))
    && (forall x :: x in FoldAll(m.settlement.allowedRails) <==> x in FoldAll(m'.settlement.allowedRails))
  }

  /** Reordering or repeating scope and rail entries leaves the normalised mandate, hence the digest, unchanged. */
  lemma SetsDecideDigest(hash: Hash, calendar: Calendar, m: Mandate, m': Mandate)
    requires SameUpToSets(m, m')
    ensures Normalize(calendar, m) == Normalize(calendar, m')
    ensures Normalize(calendar, m).Ok? ==>
              DigestOf(hash, Normalize(calendar, m).value) == DigestOf(hash, Normalize(calendar, m').value)
  {
    hide Strip, StripLower, TokenSet, NormalizeAuthorization, NormalizeAgent, MANDATE_KIND, NormalizeTerms;
    TokenSetDependsOnSet(IsScopeToken, m.allowedActions, m'.allowedActions);
    TokenSetDependsOnSet(IsScopeToken, m.allowedTools, m'.allowedTools);
    if NormalizeParties(m).Ok? {
      SettlementDecided(calendar, NormalizeParties(m).value, NormalizeParties(m').value);
    }
  }

  lemma SettlementDecided(calendar: Calendar, m: Mandate, m': Mandate)
    requires m' == m.(settlement := m'.settlement) && m'.settlement.defaultRail == m.settlement.defaultRail
    requires forall x :: x in FoldAll(m.settlement.allowedRails) <==> x in FoldAll(m'.settlement.allowedRails)
    ensures NormalizeTerms(calendar, m) == NormalizeTerms(calendar, m')
  {
    hide Strip, StripLower, TokenSet, NormalizeSpend, NormalizeConstraint, NormalizeTimestamp, IsPresenceMode;
    TokenSetDependsOnSet(IsRail, m.settlement.allowedRails, m'.settlement.allowedRails);
  }
}
