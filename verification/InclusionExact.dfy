/**
  Exactly when a signed tree head and an inclusion proof are accepted, stated over the texts that arrive, and what a
  JSON reader finds in the signed bytes of a head.
 */
module InclusionExact {
  import opened Basics
  import opened Text
  import opened Json
  import opened JsonReader
  import opened Merkle
  import opened Inclusion

  // ----- Parsing gives the respelling

  lemma DigestText(value: string, d: Digest)
    ensures ParseHex64(value) == Ok(d) <==> Hex(d) == StripLower(value)
  {
    hide StripLower, Hex;
    if Hex(d) == StripLower(value) {
      HexInjective(d, ParseHex64(value).value);
    }
  }

  lemma SignatureText(value: string, s: Signature)
    ensures ParseHex128(value) == Ok(s) <==> Hex(s) == StripLower(value)
  {
    hide StripLower, Hex;
    if Hex(s) == StripLower(value) {
      FromHexRoundTrip(s);
    }
  }

  predicate PathSpelled(entries: seq<string>, path: seq<Digest>) {
    |path| == |entries| && forall i | 0 <= i < |entries| :: Hex(path[i]) == StripLower(entries[i])
  }

  lemma {:induction false} PathText(entries: seq<string>, path: seq<Digest>)
    ensures ParsePath(entries) == Ok(path) <==> PathSpelled(entries, path)
  {
    hide ParseHex64, Hex, StripLower;
    if entries != [] && path != [] {
      DigestText(entries[0], path[0]);
      PathText(entries[1..], path[1..]);
      PathCons(entries, path);
      HeadTail(path);
      if ParsePath(entries).Ok? {
        ConsParts(ParseHex64(entries[0]).value, ParsePath(entries[1..]).value);
      }
    }
  }

  lemma PathCons(entries: seq<string>, path: seq<Digest>)
    requires entries != [] && path != []
    ensures PathSpelled(entries, path)
            <==> Hex(path[0]) == StripLower(entries[0]) && PathSpelled(entries[1..], path[1..])
  {
    hide Hex, StripLower;
    HeadTail(path);
    HeadTail(entries);
  }

  predicate HeadSpelled(raw: RawHead, h: TreeHead) {
    && Strip(raw.kind) == "paybond.agent_receipt_transparency_sth_v1" && raw.schemaVersion == 1
    && Strip(raw.signingAlgorithm) == "ed25519-sha256-json-v1"
    && h.tenantId == Strip(raw.tenantId) && h.tenantId != "" && h.treeSize == raw.treeSize >= 0
    && h.issuedAt == Strip(raw.issuedAt)
    && Hex(h.root) == StripLower(raw.rootHashHex) && Hex(h.messageDigest) == StripLower(raw.messageDigestHex)
    && Hex(h.publicKey) == StripLower(raw.publicKeyHex) && Hex(h.signature) == StripLower(raw.signatureHex)
  }

  lemma HeadText(raw: RawHead, h: TreeHead)
    ensures ParseHead(raw) == Ok(h) <==> HeadSpelled(raw, h)
  {
    hide Strip, StripLower, Hex, ParseHex64, ParseHex128;
    KindsJoined();
    DigestText(raw.rootHashHex, h.root);
    DigestText(raw.messageDigestHex, h.messageDigest);
    DigestText(raw.publicKeyHex, h.publicKey);
    SignatureText(raw.signatureHex, h.signature);
  }

  lemma KindsJoined()
    ensures STH_KIND == "paybond.agent_receipt_transparency_sth_v1"
    ensures PROOF_KIND == "paybond.agent_receipt_transparency_inclusion_proof_v1"
  {
  }

  /** Everything about a proof but its tree head. */
  predicate ProofSpelled(raw: RawProof, p: Proof) {
    && Strip(raw.kind) == "paybond.agent_receipt_transparency_inclusion_proof_v1" && raw.schemaVersion == 1
    && p.tenantId == Strip(raw.tenantId) && p.tenantId != ""
    && p.receiptId == Strip(raw.receiptId) && p.receiptId != ""
    && p.treeSize == raw.treeSize && p.leafIndex == raw.leafIndex && 0 <= p.leafIndex < p.treeSize
    && Hex(p.messageDigest) == StripLower(raw.messageDigestHex) && Hex(p.leafHash) == StripLower(raw.leafHashHex)
    && Hex(p.root) == StripLower(raw.rootHashHex) && PathSpelled(raw.auditPathHex, p.path)
  }

  lemma ProofText(raw: RawProof, head: TreeHead, p: Proof)
    ensures ParseProof(raw, head) == Ok(p) <==> ProofSpelled(raw, p) && p.treeHead == head
  {
    hide Strip, StripLower, Hex, ParseHex64, ParsePath, PathSpelled;
    KindsJoined();
    DigestText(raw.messageDigestHex, p.messageDigest);
    DigestText(raw.leafHashHex, p.leafHash);
    DigestText(raw.rootHashHex, p.root);
    PathText(raw.auditPathHex, p.path);
  }

  // ----- Acceptance

  predicate KeyTrusted(keyHex: string, trusted: seq<string>) {
    |trusted| > 0 ==> exists i | 0 <= i < |trusted| :: StripLower(trusted[i]) == keyHex
  }

  predicate HeadAccepted(hash: Hash, scheme: SignatureScheme, raw: RawHead, trusted: seq<string>, h: TreeHead) {
    && HeadSpelled(raw, h) && KeyTrusted(StripLower(raw.publicKeyHex), trusted)
    && h.messageDigest == hash(HeadBytes(h)) && scheme.verify(h.publicKey, h.signature, hash(HeadBytes(h)))
  }

  /** A head is accepted exactly when it is well spelled, trusted, and signed over the digest of its signed bytes. */
  lemma HeadAcceptedExactly(hash: Hash, scheme: SignatureScheme, raw: RawHead, trusted: seq<string>, h: TreeHead)
    ensures VerifyTreeHead(hash, scheme, raw, trusted) == Ok(h) <==> HeadAccepted(hash, scheme, raw, trusted, h)
  {
    hide ParseHead, HeadBytes, Hex, StripLower, Strip;
    HeadText(raw, h);
  }

  /** The head of the proof, its size and root, the leaf hash of the receipt digest and the path all fit together. */
  predicate ProofAccepted(hash: Hash, scheme: SignatureScheme, raw: RawProof, trusted: seq<string>, p: Proof) {
    && HeadAccepted(hash, scheme, raw.treeHead, trusted, p.treeHead) && ProofSpelled(raw, p)
    && p.treeHead.tenantId == p.tenantId && p.treeHead.treeSize == p.treeSize && p.treeHead.root == p.root
    && p.leafHash == hash([0] + p.messageDigest)
    && Reconstruct(hash, p.leafHash, p.leafIndex, p.treeSize, p.path) == Some((p.root, |p.path|))
  }

  lemma ChecksExactly(hash: Hash, p: Proof)
    requires 0 <= p.leafIndex < p.treeSize
    ensures CheckProof(hash, p).Pass? <==>
              && p.treeHead.tenantId == p.tenantId && p.treeHead.treeSize == p.treeSize && p.treeHead.root == p.root
              && p.leafHash == hash([0] + p.messageDigest)
              && Reconstruct(hash, p.leafHash, p.leafIndex, p.treeSize, p.path) == Some((p.root, |p.path|))
  {
    hide Reconstruct;
  }

  /** A proof is accepted exactly when its head is, and size, root, leaf hash and path agree with it. */
  lemma ProofAcceptedExactly(hash: Hash, scheme: SignatureScheme, raw: RawProof, trusted: seq<string>, p: Proof)
    ensures VerifyInclusion(hash, scheme, raw, trusted) == Ok(p) <==> ProofAccepted(hash, scheme, raw, trusted, p)
  {
    hide VerifyTreeHead, ParseProof, CheckProof, HeadAccepted, ProofSpelled, Reconstruct;
    HeadAcceptedExactly(hash, scheme, raw.treeHead, trusted, p.treeHead);
    ProofText(raw, p.treeHead, p);
    LeafInside(raw, p);
    if ProofSpelled(raw, p) {
      ChecksExactly(hash, p);
    }
  }

  lemma LeafInside(raw: RawProof, p: Proof)
    ensures ProofSpelled(raw, p) ==> 0 <= p.leafIndex < p.treeSize
  {
  }

  /** A JSON reader finds every stated member of the head in its signed bytes, under its name. */
  lemma HeadBytesRead(h: TreeHead)
    ensures ReadBytes(HeadBytes(h))
            == Some(Obj([("kind", Str("paybond.agent_receipt_transparency_sth_v1")), ("schema_version", Int(1)),
                         ("tenant_id", Str(h.tenantId)), ("tree_size", Int(h.treeSize)),
                         ("root_hash_sha256_hex", Str(Hex(h.root))), ("issued_at", Str(h.issuedAt)),
                         ("signing_algorithm", Str("ed25519-sha256-json-v1"))]))
  {
    hide ReadBytes, Utf8Json, Hex;
    KindsJoined();
    BytesAreJson(CanonicalHead(h));
  }
}
