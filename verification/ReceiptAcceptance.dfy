/**
  Exactly when a receipt is accepted, stated over the raw receipt and its respelling, and what one digest binds.
 */
module ReceiptAcceptance {
  import opened Basics
  import opened Text
  import opened Time
  import opened Receipt
  import opened ReceiptSpelling
  import opened ReceiptBytes
  import opened ReceiptUnambiguous
  import opened ReceiptVerify

  /** Key and signature texts hold 32 and 64 octets, and the scheme accepts them over `digest`. */
  predicate Signed(scheme: SignatureScheme, publicKeyHex: string, signatureHex: string, digest: Digest) {
    && FromHex(publicKeyHex).Some? && |FromHex(publicKeyHex).value| == 32
    && FromHex(signatureHex).Some? && |FromHex(signatureHex).value| == 64
    && scheme.verify(FromHex(publicKeyHex).value, FromHex(signatureHex).value, digest)
  }

  predicate KeyTrusted(keyHex: string, trusted: seq<string>) {
    |trusted| > 0 ==> exists i | 0 <= i < |trusted| :: StripLower(trusted[i]) == keyHex
  }

  /** What the respelling `n` of an accepted receipt carries. */
  predicate Accepted(hash: Hash, scheme: SignatureScheme, n: Receipt, trusted: seq<string>) {
    var digest := hash(CanonicalBytes(n));
    && KeyTrusted(n.publicKeyHex, trusted) && n.signingAlgorithm == "ed25519-sha256-json-v1"
    && n.messageDigestHex == Hex(digest) && Signed(scheme, n.publicKeyHex, n.signatureHex, digest)
    && match n.operatorAttestation
       case None => true
       case Some(a) =>
         && Strip(a.operatorDid) == Strip(n.authorization.agent.operatorDid)
         && a.messageDigestHex == Hex(digest) && Signed(scheme, a.publicKeyHex, a.signatureHex, digest)
  }

  lemma SignedExactly(scheme: SignatureScheme, publicKeyHex: string, signatureHex: string, digest: Digest)
    ensures SignatureValid(scheme, publicKeyHex, signatureHex, digest)
            <==> Signed(scheme, publicKeyHex, signatureHex, digest)
  {
    hide FromHex;
  }

  lemma AuthenticExactly(hash: Hash, scheme: SignatureScheme, n: Receipt, trusted: seq<string>)
    ensures AllowsKey(n.publicKeyHex, trusted) && Authenticate(hash, scheme, n).Pass?
            <==> Accepted(hash, scheme, n, trusted)
  {
    hide CanonicalBytes, SignatureValid, Signed, Authenticate, Hex, Strip, StripLower;
    var digest := hash(CanonicalBytes(n));
    SignedExactly(scheme, n.publicKeyHex, n.signatureHex, digest);
    if n.operatorAttestation.Some? {
      var a := n.operatorAttestation.value;
      SignedExactly(scheme, a.publicKeyHex, a.signatureHex, digest);
    }
  }

  lemma VerifyUnfolds(hash: Hash, scheme: SignatureScheme, calendar: Calendar, r: Receipt, trusted: seq<string>,
                      n: Receipt)
    ensures Verify(hash, scheme, calendar, r, trusted) == Ok(n)
            <==> && Normalize(hash, calendar, r) == Ok(n) && AllowsKey(n.publicKeyHex, trusted)
                 && Authenticate(hash, scheme, n).Pass?
  {
    hide Normalize, Authenticate, AllowsKey;
  }

  /**
    A receipt verifies as `n` exactly when `n` is its respelling, its key is trusted, it names the supported algorithm
    and the digest of its signed bytes, and it and its counter-signature, if any, are signed over that digest.
   */
  lemma AcceptedExactly(hash: Hash, scheme: SignatureScheme, calendar: Calendar, r: Receipt, trusted: seq<string>,
                        n: Receipt)
    ensures Verify(hash, scheme, calendar, r, trusted) == Ok(n)
            <==> Spelled(hash, calendar, r, n) && Accepted(hash, scheme, n, trusted)
  {
    hide *;
    NormalizedExactly(hash, calendar, r, n);
    AuthenticExactly(hash, scheme, n, trusted);
    VerifyUnfolds(hash, scheme, calendar, r, trusted, n);
  }

  /**
    Two raw receipts that verify under one digest are spellings of receipts that show the same in every field, or the
    signed bytes of the two collide.
   */
  lemma VerifiedDigestBinds(hash: Hash, calendar: Calendar, scheme: SignatureScheme, r: Receipt, trusted: seq<string>,
                            n: Receipt, scheme': SignatureScheme, r': Receipt, trusted': seq<string>, n': Receipt)
    requires Verify(hash, scheme, calendar, r, trusted) == Ok(n)
    requires Verify(hash, scheme', calendar, r', trusted') == Ok(n')
    requires StripLower(r.messageDigestHex) == StripLower(r'.messageDigestHex)
    ensures Spelled(hash, calendar, r, n) && Spelled(hash, calendar, r', n')
    ensures Shown(n) == Shown(n') || Collision(hash, CanonicalBytes(n), CanonicalBytes(n'))
  {
    hide Verify, Shown, Hex, StripLower, CanonicalBytes;
    DigestRecomputed(hash, scheme, calendar, r, trusted, n);
    DigestRecomputed(hash, scheme', calendar, r', trusted', n');
    HexInjective(hash(CanonicalBytes(n)), hash(CanonicalBytes(n')));
    BytesUnambiguous(n, n');
    hide Spelled;
  }

  lemma DigestRecomputed(hash: Hash, scheme: SignatureScheme, calendar: Calendar, r: Receipt, trusted: seq<string>,
                         n: Receipt)
    requires Verify(hash, scheme, calendar, r, trusted) == Ok(n)
    ensures Spelled(hash, calendar, r, n) && StripLower(r.messageDigestHex) == Hex(hash(CanonicalBytes(n)))
  {
    hide Verify, CanonicalBytes, Hex, StripLower, CoreSpelled, PartsSpelled, IdDerived, Signed, KeyTrusted;
    AcceptedExactly(hash, scheme, calendar, r, trusted, n);
  }
}
