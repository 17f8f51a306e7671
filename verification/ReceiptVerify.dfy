/**
  `verify_agent_receipt_v1` (default options) and `attach_operator_attestation_v1`, and exactly when a
  verified or counter-signed receipt verifies again.
 */
module ReceiptVerify {
  import opened Basics
  import opened Text
  import opened Time
  import opened Receipt
  import opened ReceiptFixpoint
  import opened ReceiptBytes
  import opened ReceiptUnambiguous

  function KeyMaterial(hex: string, length: nat): (r: Result<Bytes>)
    ensures r.Ok? ==> |r.value| == length
  {
    var data := FromHex(hex);
    if data.None? || |data.value| != length then Err(Malformed) else Ok(data.value)
  }

  predicate SignatureValid(scheme: SignatureScheme, publicKeyHex: string, signatureHex: string, digest: Digest) {
    && KeyMaterial(publicKeyHex, 32).Ok? && KeyMaterial(signatureHex, 64).Ok?
    && scheme.verify(KeyMaterial(publicKeyHex, 32).value, KeyMaterial(signatureHex, 64).value, digest)
  }

  /** `_verify_operator_attestation` without a key registry. */
  predicate OperatorValid(scheme: SignatureScheme, n: Receipt, digest: Digest) {
    n.operatorAttestation.None? ||
    var a := n.operatorAttestation.value;
    && Strip(a.operatorDid) == Strip(n.authorization.agent.operatorDid)
    && a.messageDigestHex == n.messageDigestHex
    && SignatureValid(scheme, a.publicKeyHex, a.signatureHex, digest)
  }

  /** The checks on a normalised receipt: algorithm, recomputed digest, both signatures. */
  function Authenticate(hash: Hash, scheme: SignatureScheme, n: Receipt): (r: Check)
    ensures r.Pass? <==>
              && n.signingAlgorithm == SIGNING_ALGORITHM
              && n.messageDigestHex == Hex(hash(CanonicalBytes(n)))
              && SignatureValid(scheme, n.publicKeyHex, n.signatureHex, hash(CanonicalBytes(n)))
              && OperatorValid(scheme, n, hash(CanonicalBytes(n)))
  {
    hide CanonicalBytes, SignatureValid, OperatorValid, SIGNING_ALGORITHM;
    var digest := hash(CanonicalBytes(n));
    if n.signingAlgorithm != SIGNING_ALGORITHM then Fail(Unsupported)
    else if !IsHex64(n.messageDigestHex) then Fail(Malformed)
    else if n.messageDigestHex != Hex(digest) then Fail(Mismatch)
    else if !SignatureValid(scheme, n.publicKeyHex, n.signatureHex, digest) then Fail(BadSignature)
    else Require(OperatorValid(scheme, n, digest), BadSignature)
  }

  function Verify(hash: Hash, scheme: SignatureScheme, calendar: Calendar, r: Receipt,
                  trusted: seq<string>): Result<Receipt> {
    var n :- Normalize(hash, calendar, r);
    :- Require(AllowsKey(n.publicKeyHex, trusted), Untrusted);
    :- Authenticate(hash, scheme, n);
    Ok(n)
  }

  function Attach(hash: Hash, scheme: SignatureScheme, calendar: Calendar, r: Receipt, seed: Bytes, operatorDid: string)
    : Result<Receipt>
  {
    var verified :- Verify(hash, scheme, calendar, r, []);
    :- Require(Strip(operatorDid) != "", Missing);
    :- Require(Strip(operatorDid) == Strip(verified.authorization.agent.operatorDid), Mismatch);
    :- Require(|seed| >= 32, Malformed);
    var digest := KeyMaterial(verified.messageDigestHex, 32);
    if digest.Err? then Err(Malformed)
    else Ok(verified.(operatorAttestation := Some(CounterSign(scheme, seed[..32], Strip(operatorDid),
                                                              verified.messageDigestHex, digest.value))))
  }

  function CounterSign(scheme: SignatureScheme, seed: Bytes, operatorDid: string, digestHex: string,
                       digest: Bytes): OperatorAttestation {
    OperatorAttestation(operatorDid, Hex(scheme.publicKey(seed)), digestHex, Hex(scheme.sign(seed, digest)))
  }

  // ----- Verifying the result of a verification

  lemma KeyMaterialOfHex(data: Bytes)
    ensures KeyMaterial(Hex(data), |data|) == Ok(data)
  {
    FromHexRoundTrip(data);
  }

  lemma AuthenticAgain(hash: Hash, scheme: SignatureScheme, n: Receipt)
    requires Authenticate(hash, scheme, n).Pass?
    ensures Authenticate(hash, scheme, SettleReceipt(n)).Pass?
            <==> hash(CanonicalBytes(SettleReceipt(n))) == hash(CanonicalBytes(n))
  {
    hide CanonicalBytes, Authenticate, SignatureValid, Hex, Strip;
    if hash(CanonicalBytes(SettleReceipt(n))) != hash(CanonicalBytes(n))
       && n.messageDigestHex == Hex(hash(CanonicalBytes(SettleReceipt(n)))) {
      HexInjective(hash(CanonicalBytes(SettleReceipt(n))), hash(CanonicalBytes(n)));
    }
  }

  /**
    When what normalising `r` gave verifies again: every timestamp prints back, and no attestation reference is blank
    or the signing bytes before and after the second pass collide.
   */
  predicate VerifiesTwice(hash: Hash, calendar: Calendar, r: Receipt, n: Receipt) {
    && StampsPrintBack(calendar, r)
    && (NoBlankReference(r) || Collision(hash, CanonicalBytes(n), CanonicalBytes(SettleReceipt(n))))
  }

  lemma ReverifyNormalized(hash: Hash, scheme: SignatureScheme, calendar: Calendar, r: Receipt, n: Receipt,
                           trusted: seq<string>)
    requires calendar.Faithful()
    requires Normalize(hash, calendar, r) == Ok(n) && Authenticate(hash, scheme, n).Pass?
             && AllowsKey(n.publicKeyHex, trusted)
    ensures Verify(hash, scheme, calendar, n, trusted).Ok? <==> VerifiesTwice(hash, calendar, r, n)
  {
    hide Normalize, CanonicalBytes, Authenticate, NoBlankReference, AllowsKey, StampsPrintBack;
    BytesFixedExactly(hash, calendar, r);
    AuthenticAgain(hash, scheme, n);
    hide SettleReceipt;
  }

  /**
    A verified receipt verifies again if and only if every timestamp of the original prints back and no attestation
    reference of it was blank (short of a collision between the two sets of signing bytes).
   */
  lemma VerifiedVerifiesAgain(hash: Hash, scheme: SignatureScheme, calendar: Calendar, r: Receipt, n: Receipt,
                              trusted: seq<string>)
    requires calendar.Faithful() && Verify(hash, scheme, calendar, r, trusted) == Ok(n)
    ensures Verify(hash, scheme, calendar, n, trusted).Ok? <==> VerifiesTwice(hash, calendar, r, n)
  {
    hide Normalize, CanonicalBytes, Authenticate, AllowsKey, VerifiesTwice;
    ReverifyNormalized(hash, scheme, calendar, r, n, trusted);
  }

  // ----- Counter-signing

  lemma CounterSignNormal(scheme: SignatureScheme, seed: Bytes, operatorDid: string, digestHex: string, digest: Bytes)
    requires Strip(operatorDid) == operatorDid != "" && IsHex64(digestHex)
    ensures NormalizeOperator(CounterSign(scheme, seed, operatorDid, digestHex, digest))
            == Ok(CounterSign(scheme, seed, operatorDid, digestHex, digest))
  {
    hide Strip, Hex, StripLower;
    var pk, sig := scheme.publicKey(seed), scheme.sign(seed, digest);
    HexFolded(Hex(pk));
    FoldedFixed(Hex(pk));
    HexFolded(Hex(sig));
    FoldedFixed(Hex(sig));
    HexFolded(digestHex);
    FoldedFixed(digestHex);
  }

  lemma NormalizeWithOperator(hash: Hash, calendar: Calendar, r: Receipt, n: Receipt, o: OperatorAttestation)
    requires Normalize(hash, calendar, r) == Ok(n) && NormalizeOperator(o) == Ok(o)
    ensures Normalize(hash, calendar, r.(operatorAttestation := Some(o))) == Ok(n.(operatorAttestation := Some(o)))
  {
    hide Envelope, Core, Parts, ReceiptIdMatches;
    var r' := r.(operatorAttestation := Some(o));
    EnvelopeWithOperator(calendar, r, Some(o));
    var e := Envelope(calendar, r).value;
    CoreWithOperator(calendar, e, Some(o));
    var c := Core(calendar, e).value;
    PartsWithOperator(calendar, c, o);
    IdWithOperator(hash, n, o);
  }

  lemma EnvelopeWithOperator(calendar: Calendar, r: Receipt, o: Option<OperatorAttestation>)
    requires Envelope(calendar, r).Ok?
    ensures Envelope(calendar, r.(operatorAttestation := o))
            == Ok(Envelope(calendar, r).value.(operatorAttestation := o))
  {
    hide Strip, StripLower, Nonblank, Stamp, RECEIPT_KIND, RECEIPT_VERSION, SIGNING_ALGORITHM;
  }

  lemma CoreWithOperator(calendar: Calendar, r: Receipt, o: Option<OperatorAttestation>)
    requires Core(calendar, r).Ok?
    ensures Core(calendar, r.(operatorAttestation := o)) == Ok(Core(calendar, r).value.(operatorAttestation := o))
  {
    hide NormalizeAuthorization, NormalizeReferences, NormalizeAttestations, NormalizeOutcome, MandateConsistent;
  }

  lemma PartsWithOperator(calendar: Calendar, r: Receipt, o: OperatorAttestation)
    requires Parts(calendar, r).Ok? && NormalizeOperator(o) == Ok(o)
    ensures Parts(calendar, r.(operatorAttestation := Some(o)))
            == Ok(Parts(calendar, r).value.(operatorAttestation := Some(o)))
  {
    hide OptExecution, OptMerchant, OptEvidence, OptPayment, OptContinuity, NormalizeOperator;
  }

  lemma IdWithOperator(hash: Hash, n: Receipt, o: OperatorAttestation)
    requires ReceiptIdMatches(hash, n)
    ensures ReceiptIdMatches(hash, n.(operatorAttestation := Some(o)))
  {
    hide ActionReceiptId, IsUuid, StripLower;
  }

  lemma CounterSignedAuthentic(hash: Hash, scheme: SignatureScheme, n: Receipt, seed: Bytes, operatorDid: string)
    requires scheme.Correct() && |seed| == 32
    requires Authenticate(hash, scheme, n).Pass?
    requires Strip(operatorDid) == operatorDid == Strip(n.authorization.agent.operatorDid)
    ensures var o := CounterSign(scheme, seed, operatorDid, n.messageDigestHex, hash(CanonicalBytes(n)));
            Authenticate(hash, scheme, n.(operatorAttestation := Some(o))).Pass?
  {
    hide CanonicalBytes, Authenticate, KeyMaterial, Strip, Hex;
    var digest := hash(CanonicalBytes(n));
    var o := CounterSign(scheme, seed, operatorDid, n.messageDigestHex, digest);
    OutsideBytes(n, n.(operatorAttestation := Some(o)));
    KeyMaterialOfHex(scheme.publicKey(seed));
    KeyMaterialOfHex(scheme.sign(seed, digest));
    assert scheme.verify(scheme.publicKey(seed), scheme.sign(seed, digest), digest);
  }

  lemma AttachedContent(hash: Hash, scheme: SignatureScheme, calendar: Calendar, r: Receipt, seed: Bytes,
                        operatorDid: string)
    requires Attach(hash, scheme, calendar, r, seed, operatorDid).Ok?
    ensures Verify(hash, scheme, calendar, r, []).Ok? && |seed| >= 32 && Strip(operatorDid) != ""
    ensures var n := Verify(hash, scheme, calendar, r, []).value;
            && Strip(operatorDid) == Strip(n.authorization.agent.operatorDid)
            && n.messageDigestHex == Hex(hash(CanonicalBytes(n)))
            && Attach(hash, scheme, calendar, r, seed, operatorDid)
               == Ok(n.(operatorAttestation := Some(CounterSign(scheme, seed[..32], Strip(operatorDid),
                                                                n.messageDigestHex, hash(CanonicalBytes(n))))))
  {
    hide Normalize, CanonicalBytes, Strip, Hex, CounterSign, KeyMaterial, Authenticate, AllowsKey;
    var n := Verify(hash, scheme, calendar, r, []).value;
    KeyMaterialOfHex(hash(CanonicalBytes(n)));
  }

  /** A normalised receipt names its operator. */
  lemma OperatorNamed(hash: Hash, calendar: Calendar, r: Receipt)
    requires Normalize(hash, calendar, r).Ok?
    ensures Strip(Normalize(hash, calendar, r).value.authorization.agent.operatorDid) != ""
  {
    hide Envelope, Core, Parts, ReceiptIdMatches, Strip;
    var e := Envelope(calendar, r).value;
    CoreOperator(calendar, e);
    PartsAuthorization(calendar, Core(calendar, e).value);
  }

  lemma CoreOperator(calendar: Calendar, r: Receipt)
    requires Core(calendar, r).Ok?
    ensures Strip(Core(calendar, r).value.authorization.agent.operatorDid) != ""
  {
    hide NormalizeReferences, NormalizeAttestations, NormalizeOutcome, MandateConsistent, Strip;
    hide AuthorizationParties, AuthorizationDetails;
    var parties := AuthorizationParties(r.authorization).value;
    PartiesOperator(r.authorization);
    DetailsKeepParties(calendar, parties);
  }

  lemma PartiesOperator(a: Authorization)
    requires AuthorizationParties(a).Ok?
    ensures Strip(AuthorizationParties(a).value.agent.operatorDid) != ""
  {
    hide Strip, StripLower, Hex64, Token, NormalizePolicy, IsCurrency;
    StripTwice(a.agent.operatorDid);
  }

  lemma PartsAuthorization(calendar: Calendar, r: Receipt)
    requires Parts(calendar, r).Ok?
    ensures Parts(calendar, r).value.authorization == r.authorization
  {
    hide OptExecution, OptMerchant, OptEvidence, OptPayment, OptContinuity, OptOperator;
  }

  /** Attaching succeeds exactly on a verified receipt, with a long enough seed and the operator the receipt names. */
  lemma AttachSucceedsExactly(hash: Hash, scheme: SignatureScheme, calendar: Calendar, r: Receipt, seed: Bytes,
                              operatorDid: string)
    ensures Attach(hash, scheme, calendar, r, seed, operatorDid).Ok? <==>
            && Verify(hash, scheme, calendar, r, []).Ok? && |seed| >= 32
            && Strip(operatorDid) == Strip(Verify(hash, scheme, calendar, r, []).value.authorization.agent.operatorDid)
  {
    hide Normalize, CanonicalBytes, Strip, Hex, CounterSign, KeyMaterial, Authenticate, AllowsKey;
    if Verify(hash, scheme, calendar, r, []).Ok? {
      var n := Verify(hash, scheme, calendar, r, []).value;
      OperatorNamed(hash, calendar, r);
      KeyMaterialOfHex(hash(CanonicalBytes(n)));
    }
  }

  /**
    Attaching an operator attestation yields a receipt that verifies, if and only if every timestamp of the original
    prints back and no attestation reference of it was blank (short of a collision).
   */
  lemma AttachVerifies(hash: Hash, scheme: SignatureScheme, calendar: Calendar, r: Receipt, seed: Bytes,
                       operatorDid: string, attached: Receipt)
    requires calendar.Faithful() && scheme.Correct()
    requires Attach(hash, scheme, calendar, r, seed, operatorDid) == Ok(attached)
    ensures Verify(hash, scheme, calendar, attached, []).Ok? <==> VerifiesTwice(hash, calendar, r, attached)
  {
    hide Attach, Normalize, CanonicalBytes, Strip, Hex, Authenticate, CounterSign, SettleReceipt, NoBlankReference,
      StampsPrintBack;
    AttachedContent(hash, scheme, calendar, r, seed, operatorDid);
    var n := Verify(hash, scheme, calendar, r, []).value;
    var did := Strip(operatorDid);
    var o := CounterSign(scheme, seed[..32], did, n.messageDigestHex, hash(CanonicalBytes(n)));
    StripTwice(operatorDid);
    CounterSignNormal(scheme, seed[..32], did, n.messageDigestHex, hash(CanonicalBytes(n)));
    NormalizeWithOperator(hash, calendar, r, n, o);
    CounterSignedAuthentic(hash, scheme, n, seed[..32], did);
    SameConditions(calendar, r, Some(o));
    ReverifyNormalized(hash, scheme, calendar, r.(operatorAttestation := Some(o)), attached, []);
  }

  lemma SameConditions(calendar: Calendar, r: Receipt, o: Option<OperatorAttestation>)
    ensures NoBlankReference(r.(operatorAttestation := o)) == NoBlankReference(r)
    ensures StampsPrintBack(calendar, r.(operatorAttestation := o)) == StampsPrintBack(calendar, r)
  {
    hide BlankReference, StripLower;
  }
}
