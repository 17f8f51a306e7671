/**
  The inputs behind the negative results on receipts: one whose signing bytes change on a second pass, because an
  attestation reference is a single space, and the same receipt signed, which verifies and is then refused.
 */
module ReceiptExample {
  import opened Basics
  import opened Text
  import opened Time
  import opened Receipt
  import opened ReceiptFixpoint
  import opened ReceiptBytes
  import opened ReceiptUnambiguous
  import opened ReceiptVerify

  /** Any valid identifier, digest and timestamp will do; the attestation reference is what the examples vary. */
  datatype Filler = Filler(uuid: string, digest: string, stamp: string, reference: Option<string>) {
    predicate Valid(calendar: Calendar) {
      IsUuid(uuid) && IsHex64(digest) && calendar.parse(stamp).Some?
    }
  }

  function ExampleAuthorization(f: Filler): Authorization {
    Authorization("p", "s", Agent("o", "m", None, f.digest, f.digest, None), f.uuid, None,
                  Policy("t", None, f.digest, None), f.stamp, 0, "usd", [], None, None, None)
  }

  function ExampleAttestation(f: Filler): Attestation {
    Attestation("a", "k", f.digest, f.reference)
  }

  function Example(f: Filler): Receipt {
    Receipt(1, "", "", "intent_terminal", f.uuid, f.stamp, "t", ExampleAuthorization(f), None, None, None, None,
            Outcome("h", None, None, None), References(f.uuid, 0, None), [ExampleAttestation(f)],
            None, None, "", "", "", "")
  }

  lemma LetterShape(s: string)
    requires |s| == 1 && 'a' <= s[0] <= 'z'
    ensures Folded(s) && IsScopeToken(s)
  {
  }

  lemma SingleLetter(s: string)
    requires |s| == 1 && 'a' <= s[0] <= 'z'
    ensures Token(s) == Ok(s) && Nonblank(s) == Ok(s)
  {
    hide Strip, StripLower, IsScopeToken, Folded;
    LetterShape(s);
    FoldedFixed(s);
  }

  lemma Shapes(f: Filler)
    ensures IsHex64(f.digest) ==> Hex64(f.digest) == Ok(f.digest)
    ensures IsUuid(f.uuid) ==> Uuid(f.uuid) == Ok(f.uuid) && StripLower(f.uuid) == f.uuid != ""
  {
    hide Strip, StripLower, Folded, IsUuid, IsHex;
    if IsHex64(f.digest) {
      HexFolded(f.digest);
      FoldedFixed(f.digest);
    }
    if IsUuid(f.uuid) {
      UuidFolded(f.uuid);
      FoldedFixed(f.uuid);
    }
  }

  /** Lower-case letters and underscores are neither space nor upper case. */
  lemma LettersFolded(s: string)
    requires forall i :: 0 <= i < |s| ==> 'a' <= s[i] <= 'z' || s[i] == '_'
    ensures Folded(s)
  {
  }

  lemma Literals()
    ensures StripLower("intent_terminal") == "intent_terminal" && StripLower("") == "" && Strip("") == ""
    ensures StripLower("usd") == "usd" && IsCurrency("usd") && "intent_terminal" != "action"
  {
    hide Strip, StripLower, Folded;
    LettersFolded("");
    LettersFolded("usd");
    LettersFolded("intent_terminal");
    FoldedFixed("");
    FoldedFixed("usd");
    FoldedFixed("intent_terminal");
    assert |"intent_terminal"| != |"action"|;
  }

  lemma EnvelopeOk(calendar: Calendar, f: Filler)
    requires f.Valid(calendar)
    ensures Envelope(calendar, Example(f)).Ok?
    ensures Envelope(calendar, Example(f)).value.scope == "intent_terminal"
    ensures Envelope(calendar, Example(f)).value.receiptId == f.uuid
  {
    hide Strip, StripLower, Token, Nonblank, IsUuid, IsHex64, RECEIPT_KIND, SIGNING_ALGORITHM, ExampleAuthorization;
    Literals();
    Shapes(f);
    SingleLetter("t");
  }

  lemma EnvelopeKeeps(calendar: Calendar, r: Receipt)
    requires Envelope(calendar, r).Ok?
    ensures var e := Envelope(calendar, r).value;
            && e.references == r.references && e.authorization == r.authorization && e.attestations == r.attestations
            && e.outcome == r.outcome && e.merchant == r.merchant && e.evidence == r.evidence && e.payment == r.payment
            && e.continuity == r.continuity && e.operatorAttestation == r.operatorAttestation
  {
    hide Strip, StripLower, Nonblank, Stamp, RECEIPT_KIND, RECEIPT_VERSION, SIGNING_ALGORITHM;
  }

  lemma PartiesOk(f: Filler)
    requires IsHex64(f.digest)
    ensures AuthorizationParties(ExampleAuthorization(f)).Ok?
    ensures SameDetails(AuthorizationParties(ExampleAuthorization(f)).value, ExampleAuthorization(f))
  {
    hide Strip, StripLower, Token, Nonblank, Hex64, IsCurrency, IsHex64;
    Literals();
    Shapes(f);
    SingleLetter("p");
    SingleLetter("s");
    SingleLetter("o");
    SingleLetter("m");
    SingleLetter("t");
  }

  lemma AuthorizationOk(calendar: Calendar, f: Filler)
    requires f.Valid(calendar)
    ensures NormalizeAuthorization(calendar, ExampleAuthorization(f)).Ok?
    ensures var a := NormalizeAuthorization(calendar, ExampleAuthorization(f)).value;
            a.mandateDigest.None? && a.mandateReferenceId.None?
  {
    hide Strip, StripLower, Uuid, IsUuid, IsHex64, AuthorizationParties;
    Shapes(f);
    PartiesOk(f);
  }

  lemma AttestationsOk(f: Filler)
    requires IsHex64(f.digest)
    ensures NormalizeAttestations([ExampleAttestation(f)]).Ok?
  {
    hide Strip, StripLower, Token, Nonblank, Hex64, IsHex64;
    Shapes(f);
    SingleLetter("a");
    SingleLetter("k");
    assert [ExampleAttestation(f)][1..] == [];
  }

  lemma CoreOk(calendar: Calendar, f: Filler, e: Receipt)
    requires f.Valid(calendar) && Envelope(calendar, Example(f)) == Ok(e)
    ensures Core(calendar, e).Ok?
  {
    hide Strip, StripLower, Token, Uuid, NormalizeAuthorization, NormalizeAttestations, Envelope, IsUuid, IsHex64;
    hide ExampleAuthorization, ExampleAttestation;
    EnvelopeKeeps(calendar, Example(f));
    AuthorizationOk(calendar, f);
    AttestationsOk(f);
    Literals();
    Shapes(f);
    SingleLetter("h");
  }

  lemma CoreKeeps(calendar: Calendar, r: Receipt)
    requires Core(calendar, r).Ok?
    ensures var c := Core(calendar, r).value;
            && c.scope == r.scope && c.receiptId == r.receiptId && NormalizeReferences(r.references) == Ok(c.references)
            && c.merchant == r.merchant && c.evidence == r.evidence && c.payment == r.payment
            && c.continuity == r.continuity && c.operatorAttestation == r.operatorAttestation
  {
    hide NormalizeAuthorization, NormalizeReferences, NormalizeAttestations, NormalizeOutcome, MandateConsistent;
  }

  lemma ExampleNormalizes(hash: Hash, calendar: Calendar, f: Filler)
    requires f.Valid(calendar)
    ensures Normalize(hash, calendar, Example(f)).Ok?
  {
    hide Envelope, Core, Uuid, StripLower, IsUuid, IsHex64, ExampleAuthorization, ExampleAttestation;
    EnvelopeOk(calendar, f);
    var e := Envelope(calendar, Example(f)).value;
    EnvelopeKeeps(calendar, Example(f));
    CoreOk(calendar, f, e);
    CoreKeeps(calendar, e);
    Literals();
    Shapes(f);
  }

  /** With one space for a reference, the bytes of the example change under a second normalisation. */
  lemma BlankReferenceCounterexample(hash: Hash, calendar: Calendar, f: Filler)
    requires calendar.Faithful() && f.Valid(calendar) && calendar.PrintsBack(f.stamp) && f.reference == Some(" ")
    ensures Normalize(hash, calendar, Example(f)).Ok?
    ensures var once := Normalize(hash, calendar, Example(f)).value;
            && Normalize(hash, calendar, once).Ok?
            && CanonicalBytes(Normalize(hash, calendar, once).value) != CanonicalBytes(once)
  {
    ExampleConditions(calendar, f);
    hide Normalize, CanonicalBytes, NoBlankReference, StampsPrintBack;
    ExampleNormalizes(hash, calendar, f);
    BytesFixedExactly(hash, calendar, Example(f));
  }

  /** The two conditions of the receipt are those of its stamp and its reference. */
  lemma ExampleConditions(calendar: Calendar, f: Filler)
    ensures StampsPrintBack(calendar, Example(f)) <==> calendar.PrintsBack(f.stamp)
    ensures f.reference == Some(" ") ==> !NoBlankReference(Example(f))
    ensures f.reference.None? ==> NoBlankReference(Example(f))
  {
    hide Strip, StripLower;
    Literals();
    SpaceIsBlank();
    assert f.reference == Some(" ") ==> BlankReference(Example(f).attestations[0]);
  }

  lemma SpaceIsBlank()
    ensures Strip(" ") == ""
  {
    assert " "[1..] == "";
    assert StripLeft(" ") == StripLeft("");
  }

  // ----- A receipt that verifies and is then refused

  /** The example with the digest of its signing bytes, signed with a seed. */
  function SignedExample(hash: Hash, scheme: SignatureScheme, calendar: Calendar, f: Filler, seed: Bytes): Receipt
    requires Normalize(hash, calendar, Example(f)).Ok?
  {
    var digest := hash(CanonicalBytes(Normalize(hash, calendar, Example(f)).value));
    Example(f).(messageDigestHex := Hex(digest), publicKeyHex := Hex(scheme.publicKey(seed)),
                signatureHex := Hex(scheme.sign(seed, digest)))
  }

  /** The fields outside the signing bytes. */
  function WithProof(r: Receipt, digestHex: string, keyHex: string, signatureHex: string): Receipt {
    r.(messageDigestHex := digestHex, publicKeyHex := keyHex, signatureHex := signatureHex)
  }

  lemma EnvelopeWithProof(calendar: Calendar, r: Receipt, d: string, k: string, s: string)
    requires Envelope(calendar, r).Ok? && StripLower(d) == d && StripLower(k) == k && StripLower(s) == s
    ensures Envelope(calendar, WithProof(r, d, k, s)) == Ok(WithProof(Envelope(calendar, r).value, d, k, s))
  {
    hide Strip, StripLower, Nonblank, Stamp, RECEIPT_KIND, RECEIPT_VERSION, SIGNING_ALGORITHM;
  }

  lemma CoreWithProof(calendar: Calendar, r: Receipt, d: string, k: string, s: string)
    requires Core(calendar, r).Ok?
    ensures Core(calendar, WithProof(r, d, k, s)) == Ok(WithProof(Core(calendar, r).value, d, k, s))
  {
    hide NormalizeAuthorization, NormalizeReferences, NormalizeAttestations, NormalizeOutcome, MandateConsistent;
  }

  lemma PartsWithProof(calendar: Calendar, r: Receipt, d: string, k: string, s: string)
    requires Parts(calendar, r).Ok?
    ensures Parts(calendar, WithProof(r, d, k, s)) == Ok(WithProof(Parts(calendar, r).value, d, k, s))
  {
    hide OptExecution, OptMerchant, OptEvidence, OptPayment, OptContinuity, OptOperator;
  }

  lemma IdWithProof(hash: Hash, n: Receipt, d: string, k: string, s: string)
    requires ReceiptIdMatches(hash, n)
    ensures ReceiptIdMatches(hash, WithProof(n, d, k, s))
  {
    hide ActionReceiptId, IsUuid, StripLower;
  }

  lemma NormalizeWithProof(hash: Hash, calendar: Calendar, r: Receipt, d: string, k: string, s: string)
    requires Normalize(hash, calendar, r).Ok? && StripLower(d) == d && StripLower(k) == k && StripLower(s) == s
    ensures Normalize(hash, calendar, WithProof(r, d, k, s))
            == Ok(WithProof(Normalize(hash, calendar, r).value, d, k, s))
  {
    hide Envelope, Core, Parts, ReceiptIdMatches, StripLower;
    EnvelopeWithProof(calendar, r, d, k, s);
    var e := Envelope(calendar, r).value;
    CoreWithProof(calendar, e, d, k, s);
    PartsWithProof(calendar, Core(calendar, e).value, d, k, s);
    IdWithProof(hash, Normalize(hash, calendar, r).value, d, k, s);
  }

  /** The default algorithm and the missing counter-signature survive normalisation. */
  lemma ExampleAlgorithm(hash: Hash, calendar: Calendar, f: Filler)
    requires f.Valid(calendar)
    ensures Normalize(hash, calendar, Example(f)).Ok?
    ensures Normalize(hash, calendar, Example(f)).value.signingAlgorithm == SIGNING_ALGORITHM
    ensures Normalize(hash, calendar, Example(f)).value.operatorAttestation.None?
  {
    hide Envelope, Core, Parts, ReceiptIdMatches, SIGNING_ALGORITHM;
    ExampleNormalizes(hash, calendar, f);
    var e := Envelope(calendar, Example(f)).value;
    EnvelopeDefaults(calendar, Example(f));
    CoreKeepsProof(calendar, e);
    PartsKeepProof(calendar, Core(calendar, e).value);
  }

  lemma EnvelopeDefaults(calendar: Calendar, r: Receipt)
    requires Envelope(calendar, r).Ok? && r.signingAlgorithm == "" && r.operatorAttestation.None?
    ensures var e := Envelope(calendar, r).value;
            e.signingAlgorithm == SIGNING_ALGORITHM && e.operatorAttestation.None?
  {
    Literals();
    hide Strip, StripLower, Nonblank, Stamp, RECEIPT_KIND, RECEIPT_VERSION, SIGNING_ALGORITHM;
  }

  lemma CoreKeepsProof(calendar: Calendar, r: Receipt)
    requires Core(calendar, r).Ok?
    ensures var c := Core(calendar, r).value;
            c.signingAlgorithm == r.signingAlgorithm && c.operatorAttestation == r.operatorAttestation
  {
    hide NormalizeAuthorization, NormalizeReferences, NormalizeAttestations, NormalizeOutcome, MandateConsistent;
  }

  lemma PartsKeepProof(calendar: Calendar, r: Receipt)
    requires Parts(calendar, r).Ok?
    ensures Parts(calendar, r).value.signingAlgorithm == r.signingAlgorithm
    ensures r.operatorAttestation.None? ==> Parts(calendar, r).value.operatorAttestation.None?
  {
    hide OptExecution, OptMerchant, OptEvidence, OptPayment, OptContinuity;
  }

  lemma HexLower(data: Bytes)
    ensures StripLower(Hex(data)) == Hex(data)
  {
    HexFolded(Hex(data));
    FoldedFixed(Hex(data));
  }

  /** The signed example verifies. */
  lemma SignedExampleVerifies(hash: Hash, scheme: SignatureScheme, calendar: Calendar, f: Filler, seed: Bytes)
    requires f.Valid(calendar) && scheme.Correct() && |seed| == 32
    ensures Normalize(hash, calendar, Example(f)).Ok?
    ensures Verify(hash, scheme, calendar, SignedExample(hash, scheme, calendar, f, seed), []).Ok?
  {
    hide Normalize, CanonicalBytes, Strip, StripLower, Hex, KeyMaterial, Example, SIGNING_ALGORITHM;
    ExampleAlgorithm(hash, calendar, f);
    var n := Normalize(hash, calendar, Example(f)).value;
    var digest := hash(CanonicalBytes(n));
    var d, k, s := Hex(digest), Hex(scheme.publicKey(seed)), Hex(scheme.sign(seed, digest));
    HexLower(digest);
    HexLower(scheme.publicKey(seed));
    HexLower(scheme.sign(seed, digest));
    NormalizeWithProof(hash, calendar, Example(f), d, k, s);
    OutsideBytes(n, WithProof(n, d, k, s));
    KeyMaterialOfHex(scheme.publicKey(seed));
    KeyMaterialOfHex(scheme.sign(seed, digest));
    assert SignedExample(hash, scheme, calendar, f, seed) == WithProof(Example(f), d, k, s);
  }

  lemma SignedConditions(hash: Hash, scheme: SignatureScheme, calendar: Calendar, f: Filler, seed: Bytes)
    requires Normalize(hash, calendar, Example(f)).Ok?
    ensures var r := SignedExample(hash, scheme, calendar, f, seed);
            && StampsPrintBack(calendar, r) == StampsPrintBack(calendar, Example(f))
            && NoBlankReference(r) == NoBlankReference(Example(f))
  {
    hide Normalize, CanonicalBytes, Hex, BlankReference, StripLower;
  }

  /** What its verification returns verifies again exactly under the two conditions. */
  lemma SignedExampleAgain(hash: Hash, scheme: SignatureScheme, calendar: Calendar, f: Filler, seed: Bytes)
    requires calendar.Faithful() && f.Valid(calendar) && scheme.Correct() && |seed| == 32
    ensures Normalize(hash, calendar, Example(f)).Ok?
    ensures Verify(hash, scheme, calendar, SignedExample(hash, scheme, calendar, f, seed), []).Ok?
    ensures var n := Verify(hash, scheme, calendar, SignedExample(hash, scheme, calendar, f, seed), []).value;
            Verify(hash, scheme, calendar, n, []).Ok? <==> VerifiesTwice(hash, calendar, Example(f), n)
  {
    SignedExampleVerifies(hash, scheme, calendar, f, seed);
    SignedConditions(hash, scheme, calendar, f, seed);
    hide Verify, CanonicalBytes, SettleReceipt, SignedExample, NoBlankReference, StampsPrintBack, Normalize;
    var r := SignedExample(hash, scheme, calendar, f, seed);
    VerifiedVerifiesAgain(hash, scheme, calendar, r, Verify(hash, scheme, calendar, r, []).value, []);
  }

  /** With a blank reference it is refused by a second verification, short of a collision. */
  lemma VerifiedThenRefused(hash: Hash, scheme: SignatureScheme, calendar: Calendar, f: Filler, seed: Bytes)
    requires calendar.Faithful() && f.Valid(calendar) && scheme.Correct() && |seed| == 32
    requires calendar.PrintsBack(f.stamp) && f.reference == Some(" ")
    ensures Normalize(hash, calendar, Example(f)).Ok?
    ensures Verify(hash, scheme, calendar, SignedExample(hash, scheme, calendar, f, seed), []).Ok?
    ensures var n := Verify(hash, scheme, calendar, SignedExample(hash, scheme, calendar, f, seed), []).value;
            Verify(hash, scheme, calendar, n, []).Ok?
            <==> Collision(hash, CanonicalBytes(n), CanonicalBytes(SettleReceipt(n)))
  {
    hide Verify, CanonicalBytes, SettleReceipt, SignedExample, NoBlankReference, StampsPrintBack, Normalize;
    SignedExampleAgain(hash, scheme, calendar, f, seed);
    ExampleConditions(calendar, f);
  }

  /** With a timestamp that does not print back it is refused by a second verification, whatever the hash. */
  lemma StampThenRefused(hash: Hash, scheme: SignatureScheme, calendar: Calendar, f: Filler, seed: Bytes)
    requires calendar.Faithful() && f.Valid(calendar) && scheme.Correct() && |seed| == 32
    requires !calendar.PrintsBack(f.stamp) && f.reference.None?
    ensures NoBlankReference(Example(f)) && Normalize(hash, calendar, Example(f)).Ok?
    ensures Verify(hash, scheme, calendar, SignedExample(hash, scheme, calendar, f, seed), []).Ok?
    ensures var n := Verify(hash, scheme, calendar, SignedExample(hash, scheme, calendar, f, seed), []).value;
            Verify(hash, scheme, calendar, n, []).Err?
  {
    hide Verify, CanonicalBytes, SettleReceipt, SignedExample, NoBlankReference, StampsPrintBack, Normalize;
    SignedExampleAgain(hash, scheme, calendar, f, seed);
    ExampleConditions(calendar, f);
  }

  const OLD_STAMP := "0999-01-01T00:00:00Z"
  const UNPADDED_STAMP := "999-01-01T00:00:00Z"

  /** A calendar that parses one instant of the year 999 and prints its year without padding, as glibc does. */
  function UnpaddedCalendar(): Calendar {
    Calendar(text => if text == OLD_STAMP then Some(-30_641_760_000_000_000) else None, _ => UNPADDED_STAMP)
  }

  lemma UnpaddedDoesNotPrintBack()
    ensures UnpaddedCalendar().Faithful() && UnpaddedCalendar().parse(OLD_STAMP).Some?
    ensures !UnpaddedCalendar().PrintsBack(OLD_STAMP)
  {
    assert |OLD_STAMP| != |UNPADDED_STAMP|;
    assert UnpaddedCalendar().parse(UNPADDED_STAMP).None?;
  }

  /** The year 999 without padding: a signed receipt without blank references verifies once and never again. */
  lemma UnpaddedYearRefused(hash: Hash, scheme: SignatureScheme, uuid: string, digest: string, seed: Bytes)
    requires IsUuid(uuid) && IsHex64(digest) && scheme.Correct() && |seed| == 32
    ensures var calendar, f := UnpaddedCalendar(), Filler(uuid, digest, OLD_STAMP, None);
            && NoBlankReference(Example(f)) && Normalize(hash, calendar, Example(f)).Ok?
            && var first := Verify(hash, scheme, calendar, SignedExample(hash, scheme, calendar, f, seed), []);
               first.Ok? && Verify(hash, scheme, calendar, first.value, []).Err?
  {
    hide Verify, CanonicalBytes, SignedExample, NoBlankReference, Normalize, OLD_STAMP, UNPADDED_STAMP;
    UnpaddedDoesNotPrintBack();
    StampThenRefused(hash, scheme, UnpaddedCalendar(), Filler(uuid, digest, OLD_STAMP, None), seed);
  }

  /**
    Counter-signing the signed example for its operator succeeds; the result verifies exactly under the two
    conditions.
   */
  lemma AttachedAgain(hash: Hash, scheme: SignatureScheme, calendar: Calendar, f: Filler, seed: Bytes)
    returns (operatorDid: string)
    requires calendar.Faithful() && f.Valid(calendar) && scheme.Correct() && |seed| == 32
    ensures Normalize(hash, calendar, Example(f)).Ok?
    ensures var attached := Attach(hash, scheme, calendar, SignedExample(hash, scheme, calendar, f, seed), seed,
                                   operatorDid);
            && attached.Ok?
            && (Verify(hash, scheme, calendar, attached.value, []).Ok?
                <==> VerifiesTwice(hash, calendar, Example(f), attached.value))
  {
    SignedExampleVerifies(hash, scheme, calendar, f, seed);
    SignedConditions(hash, scheme, calendar, f, seed);
    hide Verify, Attach, CanonicalBytes, SettleReceipt, SignedExample, NoBlankReference, StampsPrintBack, Normalize,
      Strip;
    var r := SignedExample(hash, scheme, calendar, f, seed);
    operatorDid := Verify(hash, scheme, calendar, r, []).value.authorization.agent.operatorDid;
    AttachSucceedsExactly(hash, scheme, calendar, r, seed, operatorDid);
    AttachVerifies(hash, scheme, calendar, r, seed, operatorDid,
                   Attach(hash, scheme, calendar, r, seed, operatorDid).value);
  }

  /** So an attached receipt is refused for a blank reference, short of a collision, and for a stamp outright. */
  lemma AttachedThenRefused(hash: Hash, scheme: SignatureScheme, calendar: Calendar, f: Filler, seed: Bytes)
    returns (operatorDid: string)
    requires calendar.Faithful() && f.Valid(calendar) && scheme.Correct() && |seed| == 32
    ensures Normalize(hash, calendar, Example(f)).Ok?
    ensures var attached := Attach(hash, scheme, calendar, SignedExample(hash, scheme, calendar, f, seed), seed,
                                   operatorDid);
            && attached.Ok?
            && (!calendar.PrintsBack(f.stamp) ==> Verify(hash, scheme, calendar, attached.value, []).Err?)
            && (calendar.PrintsBack(f.stamp) && f.reference == Some(" ") ==>
                  (Verify(hash, scheme, calendar, attached.value, []).Ok?
                   <==> Collision(hash, CanonicalBytes(attached.value),
                                  CanonicalBytes(SettleReceipt(attached.value)))))
  {
    hide Verify, Attach, CanonicalBytes, SettleReceipt, SignedExample, NoBlankReference, StampsPrintBack, Normalize;
    operatorDid := AttachedAgain(hash, scheme, calendar, f, seed);
    ExampleConditions(calendar, f);
  }
}
