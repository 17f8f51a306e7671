/**
  Signed tree heads and receipt inclusion: `verify_signed_tree_head_v1` and
  `verify_agent_receipt_inclusion`. Hexadecimal fields are parsed into bytes first;
  the checks then work on the parsed record.
 */
module Inclusion {
  import opened Basics
  import opened Text
  import opened Json
  import opened JsonReader
  import opened Merkle

  const KIND_PREFIX := "paybond.agent_receipt_transparency_"
  const STH_KIND := KIND_PREFIX + "sth_v1"
  const PROOF_KIND := KIND_PREFIX + "inclusion_proof_v1"
  const SCHEMA_VERSION := 1
  const SIGNING_ALGORITHM := "ed25519-sha256-json-v1"

  /** A tree head as it arrives. */
  datatype RawHead = RawHead(
    kind: string, schemaVersion: int, tenantId: string, treeSize: int, rootHashHex: string, issuedAt: string,
    signingAlgorithm: string, messageDigestHex: string, publicKeyHex: string, signatureHex: string)

  datatype TreeHead = TreeHead(
    tenantId: string, treeSize: int, root: Digest, issuedAt: string,
    messageDigest: Digest, publicKey: Digest, signature: Signature)

  /** An inclusion proof as it arrives. */
  datatype RawProof = RawProof(
    kind: string, schemaVersion: int, tenantId: string, receiptId: string, treeSize: int, leafIndex: int,
    messageDigestHex: string, leafHashHex: string, rootHashHex: string, auditPathHex: seq<string>, treeHead: RawHead)

  datatype Proof = Proof(
    tenantId: string, receiptId: string, treeSize: int, leafIndex: int,
    messageDigest: Digest, leafHash: Digest, root: Digest, path: seq<Digest>, treeHead: TreeHead)

  /** `_require_hex128` followed by `bytes.fromhex`. */
  function ParseHex128(value: string): (r: Result<Signature>)
    ensures r.Ok? ==> Hex(r.value) == StripLower(value)
  {
    var normalized := StripLower(value);
    if |normalized| == 128 && IsHex(normalized) then
      HexFromHex(normalized);
      Ok(FromHex(normalized).value)
    else Err(Malformed)
  }

  function ParsePath(entries: seq<string>): (r: Result<seq<Digest>>)
    ensures r.Ok? ==> |r.value| == |entries|
  {
    if entries == [] then Ok([])
    else
      var first :- ParseHex64(entries[0]);
      var rest :- ParsePath(entries[1..]);
      Ok([first] + rest)
  }

  function HexPath(path: seq<Digest>): seq<string> {
    if path == [] then [] else [Hex(path[0])] + HexPath(path[1..])
  }

  lemma {:induction false} ParsePathOfHex(path: seq<Digest>)
    ensures ParsePath(HexPath(path)) == Ok(path)
  {
    if path != [] {
      hide ParseHex64, Hex;
      ParseHex64OfHex(path[0]);
      ParsePathOfHex(path[1..]);
      ConsParts(Hex(path[0]), HexPath(path[1..]));
      HeadTail(path);
    }
  }

  /** The signed content of a head. */
  function CanonicalHead(h: TreeHead): Json {
    Obj([("kind", Str(STH_KIND)), ("schema_version", Int(SCHEMA_VERSION)), ("tenant_id", Str(h.tenantId)),
         ("tree_size", Int(h.treeSize)), ("root_hash_sha256_hex", Str(Hex(h.root))),
         ("issued_at", Str(h.issuedAt)), ("signing_algorithm", Str(SIGNING_ALGORITHM))])
  }

  function HeadBytes(h: TreeHead): Bytes {
    Utf8Json(CanonicalHead(h))
  }

  predicate HeadSupported(raw: RawHead) {
    && Strip(raw.kind) == STH_KIND && raw.schemaVersion == SCHEMA_VERSION
    && Strip(raw.signingAlgorithm) == SIGNING_ALGORITHM
  }

  function ParseHead(raw: RawHead): (r: Result<TreeHead>)
    ensures r.Ok? ==> r.value.tenantId == Strip(raw.tenantId) != "" && r.value.treeSize == raw.treeSize >= 0
  {
    hide HeadSupported, Strip, ParseHex64, ParseHex128;
    :- Require(HeadSupported(raw), Unsupported);
    :- Require(Strip(raw.tenantId) != "", Missing);
    :- Require(raw.treeSize >= 0, OutOfRange);
    var root :- ParseHex64(raw.rootHashHex);
    var messageDigest :- ParseHex64(raw.messageDigestHex);
    var publicKey :- ParseHex64(raw.publicKeyHex);
    var signature :- ParseHex128(raw.signatureHex);
    Ok(TreeHead(Strip(raw.tenantId), raw.treeSize, root, Strip(raw.issuedAt), messageDigest, publicKey, signature))
  }

  function VerifyTreeHead(hash: Hash, scheme: SignatureScheme, raw: RawHead,
                          trusted: seq<string>): (r: Result<TreeHead>)
    ensures r.Ok? ==> r.value.messageDigest == hash(HeadBytes(r.value))
    ensures r.Ok? ==> scheme.verify(r.value.publicKey, r.value.signature, r.value.messageDigest)
    ensures r.Ok? ==> r.value.tenantId == Strip(raw.tenantId) != ""
  {
    hide ParseHead, HeadBytes, Strip;
    var h :- ParseHead(raw);
    :- Require(AllowsKey(Hex(h.publicKey), trusted), Untrusted);
    :- Require(hash(HeadBytes(h)) == h.messageDigest, Mismatch);
    :- Require(scheme.verify(h.publicKey, h.signature, h.messageDigest), BadSignature);
    Ok(h)
  }

  predicate ProofSupported(raw: RawProof) {
    Strip(raw.kind) == PROOF_KIND && raw.schemaVersion == SCHEMA_VERSION
  }

  /** Everything about a proof but its tree head. */
  function ParseProof(raw: RawProof, head: TreeHead): (r: Result<Proof>)
    ensures r.Ok? ==> 0 <= r.value.leafIndex < r.value.treeSize && r.value.treeHead == head
  {
    hide ProofSupported, Strip, ParseHex64, ParsePath;
    :- Require(ProofSupported(raw), Unsupported);
    :- Require(Strip(raw.tenantId) != "" && Strip(raw.receiptId) != "", Missing);
    :- Require(raw.treeSize > 0 && 0 <= raw.leafIndex < raw.treeSize, OutOfRange);
    var messageDigest :- ParseHex64(raw.messageDigestHex);
    var leafHash :- ParseHex64(raw.leafHashHex);
    var root :- ParseHex64(raw.rootHashHex);
    var path :- ParsePath(raw.auditPathHex);
    Ok(Proof(Strip(raw.tenantId), Strip(raw.receiptId), raw.treeSize, raw.leafIndex,
             messageDigest, leafHash, root, path, head))
  }

  /** The Merkle checks on a parsed proof. */
  function CheckProof(hash: Hash, p: Proof): (r: Check)
    requires 0 <= p.leafIndex < p.treeSize
    ensures r.Pass? <==>
              && p.treeHead.tenantId == p.tenantId && p.treeHead.treeSize == p.treeSize && p.treeHead.root == p.root
              && p.leafHash == LeafHash(hash, p.messageDigest)
              && Reconstruct(hash, LeafHash(hash, p.messageDigest), p.leafIndex, p.treeSize, p.path)
                 == Some((p.root, |p.path|))
  {
    hide Reconstruct, LeafHash;
    if p.treeHead.tenantId != p.tenantId || p.treeHead.treeSize != p.treeSize
      || p.treeHead.root != p.root then Fail(Mismatch)
    else if LeafHash(hash, p.messageDigest) != p.leafHash then Fail(Mismatch)
    else
      var rebuilt := Reconstruct(hash, p.leafHash, p.leafIndex, p.treeSize, p.path);
      if rebuilt.None? then Fail(TooShort)
      else if rebuilt.value.1 != |p.path| then Fail(TooLong)
      else Require(rebuilt.value.0 == p.root, Mismatch)
  }

  function VerifyInclusion(hash: Hash, scheme: SignatureScheme, raw: RawProof, trusted: seq<string>): (r: Result<Proof>)
    ensures r.Ok? ==> 0 <= r.value.leafIndex < r.value.treeSize && CheckProof(hash, r.value).Pass?
    ensures r.Ok? ==> VerifyTreeHead(hash, scheme, raw.treeHead, trusted) == Ok(r.value.treeHead)
  {
    hide VerifyTreeHead, ParseProof, CheckProof;
    var head :- VerifyTreeHead(hash, scheme, raw.treeHead, trusted);
    var p :- ParseProof(raw, head);
    :- CheckProof(hash, p);
    Ok(p)
  }

  // ----- What acceptance means

  /** The pair of hash inputs on which two proofs for one position disagree first, if any. */
  function ProofDisagreement(hash: Hash, d: Bytes, d': Bytes, index: nat, size: nat, path: seq<Digest>,
                             path': seq<Digest>)
    : Option<(Bytes, Bytes)>
    requires index < size && |path| == |path'| == PathLength(index, size)
  {
    var found := Disagreement(hash, LeafHash(hash, d), LeafHash(hash, d'), index, size, path, path');
    if found.Some? then found
    else if d != d' then Some((LeafInput(d), LeafInput(d')))
    else None
  }

  lemma LeafInputInjective(d: Bytes, d': Bytes)
    requires d != d'
    ensures LeafInput(d) != LeafInput(d')
  {
    assert d == LeafInput(d)[1..] && d' == LeafInput(d')[1..];
  }

  lemma SamePosition(hash: Hash, d: Bytes, d': Bytes, root: Digest, index: nat, size: nat, path: seq<Digest>,
                     path': seq<Digest>)
    requires index < size
    requires Reconstruct(hash, LeafHash(hash, d), index, size, path) == Some((root, |path|))
    requires Reconstruct(hash, LeafHash(hash, d'), index, size, path') == Some((root, |path'|))
    ensures |path| == |path'| == PathLength(index, size)
    ensures Explains(hash, ProofDisagreement(hash, d, d', index, size, path, path'), d == d' && path == path')
  {
    hide Reconstruct, Disagreement, PathLength, LeafInput;
    ReconstructShape(hash, LeafHash(hash, d), index, size, path);
    ReconstructShape(hash, LeafHash(hash, d'), index, size, path');
    ProofsUnique(hash, LeafHash(hash, d), LeafHash(hash, d'), index, size, path, path');
    if d != d' {
      LeafInputInjective(d, d');
    }
  }

  /**
    Accepted proofs under the same root, size and index prove the same receipt digest with the same path,
    or the two proofs contain a collision.
   */
  lemma AcceptedProofsAgree(hash: Hash, scheme: SignatureScheme, raw: RawProof, trusted: seq<string>, p: Proof,
                            scheme': SignatureScheme, raw': RawProof, trusted': seq<string>, p': Proof)
    requires VerifyInclusion(hash, scheme, raw, trusted) == Ok(p)
    requires VerifyInclusion(hash, scheme', raw', trusted') == Ok(p')
    requires p.root == p'.root && p.treeSize == p'.treeSize && p.leafIndex == p'.leafIndex
    ensures 0 <= p.leafIndex < p.treeSize && |p.path| == |p'.path| == PathLength(p.leafIndex, p.treeSize)
    ensures Explains(hash,
                     ProofDisagreement(hash, p.messageDigest, p'.messageDigest, p.leafIndex, p.treeSize, p.path,
                                       p'.path),
                     p.messageDigest == p'.messageDigest && p.path == p'.path)
  {
    hide VerifyInclusion, Reconstruct, ProofDisagreement, PathLength, LeafHash;
    SamePosition(hash, p.messageDigest, p'.messageDigest, p.root, p.leafIndex, p.treeSize, p.path, p'.path);
  }

  /**
    An accepted proof whose root is the tree hash of `leaves` proves that the leaf at its index is the receipt
    digest and carries that leaf's audit path, or contains a collision with the honest tree.
   */
  lemma InclusionSound(hash: Hash, scheme: SignatureScheme, raw: RawProof, trusted: seq<string>, p: Proof,
                       leaves: seq<Bytes>)
    requires VerifyInclusion(hash, scheme, raw, trusted) == Ok(p)
    requires p.treeSize == |leaves| && p.root == TreeHash(hash, leaves)
    ensures 0 <= p.leafIndex < |leaves| && |p.path| == PathLength(p.leafIndex, |leaves|)
    ensures Explains(hash,
                     ProofDisagreement(hash, p.messageDigest, leaves[p.leafIndex], p.leafIndex, |leaves|,
                                       p.path, AuditPath(hash, p.leafIndex, leaves)),
                     p.messageDigest == leaves[p.leafIndex] && p.path == AuditPath(hash, p.leafIndex, leaves))
  {
    hide VerifyInclusion, Reconstruct, ProofDisagreement, PathLength, TreeHash, LeafHash;
    var audit := AuditPath(hash, p.leafIndex, leaves);
    Completeness(hash, p.leafIndex, leaves, audit);
    SamePosition(hash, p.messageDigest, leaves[p.leafIndex], p.root, p.leafIndex, |leaves|, p.path, audit);
  }

  /** The proof an honest log hands out for leaf `index`. */
  function HonestProof(hash: Hash, tenantId: string, receiptId: string, leaves: seq<Digest>, index: nat,
                       head: RawHead): RawProof
    requires index < |leaves|
  {
    RawProof(PROOF_KIND, SCHEMA_VERSION, tenantId, receiptId, |leaves|, index, Hex(leaves[index]),
             Hex(LeafHash(hash, leaves[index])), Hex(TreeHash(hash, leaves)),
             HexPath(AuditPath(hash, index, leaves)), head)
  }

  /** Every leaf of a tree whose signed head verifies has a proof that is accepted. */
  lemma HonestProofAccepted(hash: Hash, scheme: SignatureScheme, tenantId: string, receiptId: string,
                            leaves: seq<Digest>, index: nat, raw: RawHead, trusted: seq<string>, head: TreeHead)
    requires index < |leaves|
    requires Strip(receiptId) != ""
    requires VerifyTreeHead(hash, scheme, raw, trusted) == Ok(head)
    requires head.tenantId == Strip(tenantId) && head.treeSize == |leaves| && head.root == TreeHash(hash, leaves)
    ensures VerifyInclusion(hash, scheme, HonestProof(hash, tenantId, receiptId, leaves, index, raw), trusted).Ok?
  {
    hide VerifyTreeHead, Strip, Reconstruct, LeafHash, TreeHash, ParseProof, HonestProof;
    HonestParsed(hash, tenantId, receiptId, leaves, index, raw, head);
    Completeness(hash, index, leaves, AuditPath(hash, index, leaves));
  }

  lemma HonestParsed(hash: Hash, tenantId: string, receiptId: string, leaves: seq<Digest>, index: nat, raw: RawHead,
                     head: TreeHead)
    requires index < |leaves| && Strip(receiptId) != "" && Strip(tenantId) != ""
    ensures HonestProof(hash, tenantId, receiptId, leaves, index, raw).treeHead == raw
    ensures ParseProof(HonestProof(hash, tenantId, receiptId, leaves, index, raw), head)
            == Ok(Proof(Strip(tenantId), Strip(receiptId), |leaves|, index, leaves[index],
                        LeafHash(hash, leaves[index]),
                        TreeHash(hash, leaves), AuditPath(hash, index, leaves), head))
  {
    hide Strip, LeafHash, TreeHash, AuditPath, ParseHex64, ParsePath, HexPath, Hex, ProofSupported;
    ParseHex64OfHex(leaves[index]);
    ParseHex64OfHex(LeafHash(hash, leaves[index]));
    ParseHex64OfHex(TreeHash(hash, leaves));
    ParsePathOfHex(AuditPath(hash, index, leaves));
    HonestSupported(HonestProof(hash, tenantId, receiptId, leaves, index, raw));
  }

  lemma HonestSupported(raw: RawProof)
    requires raw.kind == PROOF_KIND && raw.schemaVersion == SCHEMA_VERSION
    ensures ProofSupported(raw)
  {
    hide Strip, IsSpace;
    KindTrimmed("inclusion_proof_v1");
  }

  lemma KindTrimmed(suffix: string)
    requires suffix != [] && suffix[|suffix| - 1] == '1'
    ensures Strip(KIND_PREFIX + suffix) == KIND_PREFIX + suffix
  {
    assert KIND_PREFIX[0] == 'p';
    StripTrimmed(KIND_PREFIX + suffix);
  }

  /** The head a log signs for its leaves. */
  function SignedTree(hash: Hash, scheme: SignatureScheme, seed: Bytes, tenantId: string, leaves: seq<Bytes>,
                      issuedAt: string): TreeHead
  {
    var zeros: Digest := seq(32, _ => 0);
    var h := TreeHead(Strip(tenantId), |leaves|, TreeHash(hash, leaves), Strip(issuedAt), zeros, scheme.publicKey(seed),
                      seq(64, _ => 0));
    var digest := hash(HeadBytes(h));
    h.(messageDigest := digest, signature := scheme.sign(seed, digest))
  }

  function RawOf(h: TreeHead): RawHead {
    RawHead(STH_KIND, SCHEMA_VERSION, h.tenantId, h.treeSize, Hex(h.root), h.issuedAt, SIGNING_ALGORITHM,
            Hex(h.messageDigest), Hex(h.publicKey), Hex(h.signature))
  }

  lemma ParseHex128OfHex(s: Signature)
    ensures ParseHex128(Hex(s)) == Ok(s)
  {
    HexFolded(Hex(s));
    FoldedFixed(Hex(s));
    FromHexRoundTrip(s);
  }

  lemma RawSupported(h: TreeHead)
    ensures HeadSupported(RawOf(h))
  {
    hide Strip, IsSpace, Hex;
    KindTrimmed("sth_v1");
    AlgorithmTrimmed();
  }

  lemma AlgorithmTrimmed()
    ensures Strip(SIGNING_ALGORITHM) == SIGNING_ALGORITHM
  {
    StripTrimmed(SIGNING_ALGORITHM);
  }

  lemma RawParsed(h: TreeHead)
    requires Strip(h.tenantId) == h.tenantId != "" && Strip(h.issuedAt) == h.issuedAt && h.treeSize >= 0
    ensures ParseHead(RawOf(h)) == Ok(h)
  {
    hide Strip, HeadSupported, ParseHex64, ParseHex128, Hex;
    RawSupported(h);
    ParseHex64OfHex(h.root);
    ParseHex64OfHex(h.messageDigest);
    ParseHex64OfHex(h.publicKey);
    ParseHex128OfHex(h.signature);
  }

  lemma DigestOutsideHead(h: TreeHead, d: Digest, s: Signature)
    ensures HeadBytes(h.(messageDigest := d, signature := s)) == HeadBytes(h)
  {
    hide Utf8Json, Hex;
  }

  lemma SignedTreeFields(hash: Hash, scheme: SignatureScheme, seed: Bytes, tenantId: string, leaves: seq<Bytes>,
                         issuedAt: string)
    ensures var h := SignedTree(hash, scheme, seed, tenantId, leaves, issuedAt);
            && h.tenantId == Strip(tenantId) && h.treeSize == |leaves| && h.root == TreeHash(hash, leaves)
            && h.issuedAt == Strip(issuedAt) && h.publicKey == scheme.publicKey(seed)
            && h.messageDigest == hash(HeadBytes(h)) && h.signature == scheme.sign(seed, h.messageDigest)
  {
    hide Strip, HeadBytes, TreeHash;
    var zeros: Digest := seq(32, _ => 0);
    var none: Signature := seq(64, _ => 0);
    var h := SignedTree(hash, scheme, seed, tenantId, leaves, issuedAt);
    DigestOutsideHead(h, zeros, none);
    assert h.(messageDigest := zeros, signature := none)
        == TreeHead(Strip(tenantId), |leaves|, TreeHash(hash, leaves), Strip(issuedAt), zeros,
                    scheme.publicKey(seed), none);
  }

  /** A head signed by a log verifies exactly when its key is allowed. */
  lemma SignedHeadAccepted(hash: Hash, scheme: SignatureScheme, seed: Bytes, tenantId: string, leaves: seq<Bytes>,
                           issuedAt: string, trusted: seq<string>)
    requires scheme.Correct() && |seed| == 32 && Strip(tenantId) != ""
    ensures var h := SignedTree(hash, scheme, seed, tenantId, leaves, issuedAt);
            VerifyTreeHead(hash, scheme, RawOf(h), trusted)
            == if AllowsKey(Hex(scheme.publicKey(seed)), trusted) then Ok(h) else Err(Untrusted)
  {
    hide Strip, HeadBytes, TreeHash, SignedTree, RawOf, ParseHead, AllowsKey, Hex;
    var h := SignedTree(hash, scheme, seed, tenantId, leaves, issuedAt);
    SignedTreeFields(hash, scheme, seed, tenantId, leaves, issuedAt);
    StripTwice(tenantId);
    StripTwice(issuedAt);
    RawParsed(h);
    assert scheme.verify(scheme.publicKey(seed), scheme.sign(seed, h.messageDigest), h.messageDigest);
  }

  /** End to end: the proof a log hands out under its signed head is accepted exactly when its key is allowed. */
  lemma HonestLogAccepted(hash: Hash, scheme: SignatureScheme, seed: Bytes, tenantId: string, receiptId: string,
                          leaves: seq<Digest>, index: nat, issuedAt: string, trusted: seq<string>)
    requires scheme.Correct() && |seed| == 32 && Strip(tenantId) != "" && Strip(receiptId) != "" && index < |leaves|
    ensures var raw := RawOf(SignedTree(hash, scheme, seed, tenantId, leaves, issuedAt));
            VerifyInclusion(hash, scheme, HonestProof(hash, tenantId, receiptId, leaves, index, raw), trusted).Ok?
            <==> AllowsKey(Hex(scheme.publicKey(seed)), trusted)
  {
    hide Strip, TreeHash, SignedTree, RawOf, VerifyTreeHead, VerifyInclusion, AllowsKey, Hex, LeafHash, HexPath;
    var h := SignedTree(hash, scheme, seed, tenantId, leaves, issuedAt);
    SignedTreeFields(hash, scheme, seed, tenantId, leaves, issuedAt);
    SignedHeadAccepted(hash, scheme, seed, tenantId, leaves, issuedAt, trusted);
    if AllowsKey(Hex(scheme.publicKey(seed)), trusted) {
      HonestProofAccepted(hash, scheme, tenantId, receiptId, leaves, index, RawOf(h), trusted, h);
    }
  }

  /** Verified tree heads with one message digest state the same tree, or their canonical bytes collide. */
  lemma TreeHeadsBound(hash: Hash, scheme: SignatureScheme, raw: RawHead, trusted: seq<string>, h: TreeHead,
                       scheme': SignatureScheme, raw': RawHead, trusted': seq<string>, h': TreeHead)
    requires VerifyTreeHead(hash, scheme, raw, trusted) == Ok(h)
    requires VerifyTreeHead(hash, scheme', raw', trusted') == Ok(h')
    requires h.messageDigest == h'.messageDigest
    ensures || Collision(hash, HeadBytes(h), HeadBytes(h'))
            || (h.tenantId == h'.tenantId && h.treeSize == h'.treeSize && h.root == h'.root
                && h.issuedAt == h'.issuedAt)
  {
    hide VerifyTreeHead, CanonicalHead;
    if HeadBytes(h) == HeadBytes(h') {
      Utf8JsonInjective(CanonicalHead(h), CanonicalHead(h'));
      CanonicalHeadInjective(h, h');
    }
  }

  lemma CanonicalHeadInjective(h: TreeHead, h': TreeHead)
    requires CanonicalHead(h) == CanonicalHead(h')
    ensures h.tenantId == h'.tenantId && h.treeSize == h'.treeSize && h.root == h'.root && h.issuedAt == h'.issuedAt
  {
    hide Hex, STH_KIND, SIGNING_ALGORITHM;
    var f, f' := CanonicalHead(h).fields, CanonicalHead(h').fields;
    assert f[2].1 == f'[2].1 && f[3].1 == f'[3].1 && f[4].1 == f'[4].1 && f[5].1 == f'[5].1;
    HexInjective(h.root, h'.root);
  }
}
