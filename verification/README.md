# Paybond kit: verified model

A Dafny model of the parts of the Paybond Python kit that are algorithms or protocols, with proofs about them.

| file | what it models |
|---|---|
| `Basics`, `Ordering`, `Text`, `TextExact`, `Patterns`, `Time` | outcomes, hashes and signatures as parameters, sorting, UTF-8, hexadecimal text, trimming, the regular expressions, truncation to seconds |
| `Json`, `JsonReader`, `JsonDigest`, `KeyOrder`, `GoEscape` | the compact JSON printer, a reader of RFC 8259 to read it back, key-sorting digests and their key order, the Go HTML-safe escape pass |
| `Merkle`, `Inclusion`, `InclusionExact` | sections 2.1 and 2.1.1 of RFC 6962: root reconstruction, signed tree heads, inclusion proofs |
| `Cbor`, `CborRoundTrip`, `CborMaps`, `CborUnambiguous`, `CborTruncation`, `CborCut` | the CBOR subset: round trip, map bytes, prefix-freeness, truncated input |
| `Scitt`, `ScittStates` | COSE_Sign1 and SCITT exports, and what they state |
| `Mandate`, `MandateSpelling` | mandate normalisation, signing text, signing and verification |
| `Receipt`, `ReceiptLoops`, `ReceiptSpelling`, `ReceiptFixpoint`, `ReceiptBytes`, `ReceiptWire`, `ReceiptUnambiguous`, `ReceiptVerify`, `ReceiptAcceptance`, `ReceiptExample` | receipt normalisation, signing bytes, verification, operator attestation |
| `Chain`, `Continuity`, `ChainExample`, `Commitment` | continuity links, the chain check, what the head of a run commits to |
| `TokenHistory`, `TokenExact`, `TokenCache` | the capability-token cache against the history of its calls |
| `RateLimiter` | the fixed-window limiter with lazy sweeping |
| `MppFunding`, `GatewayRetry`, `DevicePoll` | three protocol loops against arbitrary environments |
| `EvidenceReport`, `EvidenceGate` | evidence validation and the gate that relies on it |

SHA-256 and BLAKE3 are an arbitrary function into 32 bytes, `Hash`. Nothing is assumed about collisions: a binding
result says "equal, or here are two distinct inputs with one hash". Ed25519 is three arbitrary functions; where
needed, `SignatureScheme.Correct` states that what a seed signs its public key verifies. Clock readings, server
answers, callbacks, jitter and schema checking are parameters that range over everything, and a raised exception is
a value of the result. Where a loop of the code is a method here, its postcondition equates it with a function or
with a description of the run, and the lemmas are about that.

Where the code differs from what one would expect, the code is followed:

- A verified receipt need not verify again. A whitespace-only `reference_id` of an attestation is printed as an empty
  string on the first pass of receipt normalisation and dropped on the second; and `strftime("%Y")` may leave years
  before 1000 unpadded, which the second pass cannot parse. Without either it verifies again, and only then, short of
  a collision (`ReceiptVerify.VerifiedVerifiesAgain`). `ReceiptExample` holds a signed receipt of each kind that
  verifies once and not twice. Mandates print with `isoformat`, which pads.
- The CBOR encoder writes four-byte unsigned integers that the decoder refuses, at any depth
  (`CborRoundTrip.RoundTripExactly`), and a truncated string moves the cursor past the end of the data
  (`CborTruncation.InsideExactlyStable`).
- Extending a prior receipt that lacks continuity yields number 2, and such a run is refused
  (`Continuity.ExtendedRunAcceptedExactly`).
- A Cloudflare `retry_after` of zero counts as absent, because of Python's `or` (`GatewayRetry.EdgeDelayTaken`).
- Object keys are sorted by code point, while section 3.2.3 of RFC 8785 sorts by UTF-16 code units
  (`KeyOrder.OrdersDisagreeExactly`); conformance to RFC 8785 is not claimed.

## Model

| member | source | states |
|---|---|---|
| Merkle.LargestPowerOfTwoLessThan | src/paybond_kit/agent_receipt_inclusion.py:42-48 | The doubling loop ends with the power of two k with k < n <= 2k for n >= 2, and with 0 otherwise |
| Merkle.SplitCharacterised | src/paybond_kit/agent_receipt_inclusion.py:42-48 | That k is the only power of two with k < n <= 2k |
| Merkle.ReconstructShape | src/paybond_kit/agent_receipt_inclusion.py:61-82 | Reconstruction fails exactly on paths shorter than a length fixed by index and size, consumes exactly that many entries and never looks at the rest |
| Merkle.PathLengthLogarithmic | src/paybond_kit/agent_receipt_inclusion.py:61-82 | The number of entries consumed is at most d whenever size <= 2^d |
| Merkle.Completeness | src/paybond_kit/agent_receipt_inclusion.py:61-82 | The audit path of section 2.1.1 of RFC 6962, with anything after it, reconstructs the tree hash of section 2.1 |
| Merkle.ProofsUnique | src/paybond_kit/agent_receipt_inclusion.py:61-82 | Two leaf hashes and paths that rebuild the same root at one position are equal, or a computed pair of node inputs collides |
| Merkle.Binding | src/paybond_kit/agent_receipt_inclusion.py:61-82 | A path used up entirely that rebuilds the tree hash of a list proves the leaf at that index by its audit path, or a computed pair of inputs collides |
| Merkle.TreeHashCommits | src/paybond_kit/agent_receipt_inclusion.py:51-82 | The tree hash commits to the whole list: two leaf lists of any lengths with one tree hash are equal, or a pair of inputs computed along both trees collides |
| Merkle.DomainsSeparated | src/paybond_kit/agent_receipt_inclusion.py:51-58 | No leaf input is ever a node input, nor the input of the empty tree |
| InclusionExact.HeadAcceptedExactly | src/paybond_kit/agent_receipt_inclusion.py:107-167 | A tree head is accepted if and only if it is the respelling of what arrived, its key is trusted, and its digest is that of its signed bytes and is signed |
| InclusionExact.ProofAcceptedExactly | src/paybond_kit/agent_receipt_inclusion.py:170-242 | A proof is accepted if and only if its head is, tenant, size and root agree with it, the leaf hash is that of 0 and the receipt digest, and the whole path rebuilds the root |
| InclusionExact.HeadBytesRead | src/paybond_kit/agent_receipt_inclusion.py:94-104 | A JSON reader finds every stated member of the head under its name in the signed bytes |
| Inclusion.SignedHeadAccepted | src/paybond_kit/agent_receipt_inclusion.py:107-167 | A tree head signed by a log verifies, as it was signed, exactly when its key is allowed |
| Inclusion.HonestLogAccepted | src/paybond_kit/agent_receipt_inclusion.py:170-242 | End to end, the proof a log hands out for a leaf under its signed head is accepted exactly when its key is allowed |
| Inclusion.AcceptedProofsAgree | src/paybond_kit/agent_receipt_inclusion.py:170-242 | Accepted proofs for one root, size and index prove the same receipt with the same path, or contain a collision |
| Inclusion.InclusionSound | src/paybond_kit/agent_receipt_inclusion.py:170-242 | An accepted proof under the tree hash of a list proves that the receipt is the leaf at its index, or contains a collision with the list |
| Inclusion.HonestProofAccepted | src/paybond_kit/agent_receipt_inclusion.py:170-242 | Under a verified tree head for a list, every leaf has a proof that is accepted |
| Inclusion.TreeHeadsBound | src/paybond_kit/agent_receipt_inclusion.py:94-104 | Verified tree heads with one message digest state the same tree, or their canonical bytes collide |
| TextExact.DecodesExactly | src/paybond_kit/json_digest.py:26 | The strict UTF-8 decoder accepts exactly the encodings, each as the text it encodes |
| TextExact.StripExactly | src/paybond_kit/agent_receipt_inclusion.py:24-39 | `strip` gives the trimmed text between two runs of white space, and only that |
| TextExact.SpaceCodes | src/paybond_kit/agent_receipt_inclusion.py:24-39 | The 29 code points `strip` removes and the 6 `fromhex` skips |
| TextExact.LowerLetters | src/paybond_kit/agent_receipt_inclusion.py:24-39 | Lower-casing moves the 26 letters and nothing else |
| TextExact.FromHexExactly | src/paybond_kit/agent_receipt_inclusion.py:24-39 | Without spaces `fromhex` accepts exactly an even number of hexadecimal digits, and `hex` undoes it |
| TextExact.FromHexSplits | src/paybond_kit/agent_mandate.py:472-483 | At a space `fromhex` reads the two sides on their own and joins them |
| Patterns.ScopeTokenExactly | src/paybond_kit/agent_receipt.py:45 | The scope-token test accepts exactly the full matches of `[a-z0-9][a-z0-9._:/-]{0,127}` |
| Patterns.UuidExactly | src/paybond_kit/agent_receipt.py:48-50 | The UUID test accepts exactly five runs of 8, 4, 4, 4 and 12 hexadecimal digits joined by dashes |
| Patterns.Hex64Exactly | src/paybond_kit/agent_receipt.py:46 | The digest test accepts exactly 64 hexadecimal digits |
| Patterns.TenantIdExactly | src/paybond_kit/agent_mandate.py:34 | The tenant test accepts exactly the full matches of `[a-z0-9][a-z0-9._-]*` up to 256 characters |
| Patterns.CurrenciesExactly | src/paybond_kit/agent_mandate.py:32 | The currency tests accept exactly the full matches of `[a-z0-9_]{3,16}` for mandates and `[a-z]{3}` for receipts |
| JsonReader.ReadsBack | src/paybond_kit/agent_receipt.py:147-150 | What is printed, with or without Go escapes, in front of any text that cannot prolong it, is read by a JSON reader as exactly the value and ends there |
| JsonReader.PrintedIsJson | src/paybond_kit/agent_receipt.py:147-150 | The printed text is a JSON text of the value by the grammar of RFC 8259 |
| JsonReader.PrintUnambiguous | src/paybond_kit/agent_receipt.py:147-150 | So in any surrounding text the printer determines the value and where it ends |
| JsonReader.EscapedOnlyWhenNeeded | src/paybond_kit/agent_receipt.py:147-150 | Characters are written raw unless JSON or the Go pass requires an escape (`ensure_ascii=False`), and escapes use lower-case digits |
| JsonReader.MinusExactly | src/paybond_kit/agent_receipt.py:147-150 | A number has a minus sign exactly when it is negative, so zero is never `-0` |
| JsonReader.Utf8JsonInjective | src/paybond_kit/agent_receipt.py:147-150 | Equal printed bytes come from equal values |
| JsonDigest.NormalizeJson | src/paybond_kit/json_digest.py:11-20 | The loop over sorted keys computes the recursive normal form |
| JsonDigest.NormalizeDecidesEquivalence | src/paybond_kit/json_digest.py:11-20 | Two values have one normal form exactly when they differ in key order only |
| JsonDigest.NormalFormExactly | src/paybond_kit/json_digest.py:11-20 | The normal form is the one value equal up to key order whose keys ascend strictly by code point at every level |
| JsonDigest.CanonicalBytesDecideEquivalence | src/paybond_kit/json_digest.py:23-26 | So do the bytes that are hashed |
| JsonDigest.DigestBinds | src/paybond_kit/json_digest.py:23-26 | Digests are equal exactly when the values differ in key order only or the hashed bytes collide |
| Ordering.LexLeqExactly | src/paybond_kit/json_digest.py:17-19 | The order used for keys puts a prefix first and otherwise decides at the first difference |
| KeyOrder.OrdersDisagreeExactly | src/paybond_kit/json_digest.py:17-19 | Code-point order and the UTF-16 order of section 3.2.3 of RFC 8785 disagree on two keys exactly when, at their first difference, one character is at or above U+10000 and the other in U+E000 to U+FFFF |
| KeyOrder.TwoKeysReordered | src/paybond_kit/json_digest.py:17-19 | A two-key object that is normalised in the other order than RFC 8785 asks for |
| GoEscape.GoEscapeIsCharMap | src/paybond_kit/agent_mandate.py:128-136 | The five chained replacements equal one simultaneous map over characters |
| GoEscape.GoEscapePrinted | src/paybond_kit/agent_mandate.py:128-136 | The pass changes string literals only: it turns plain JSON text into JSON text with Go escapes |
| GoEscape.GoTextIsJson | src/paybond_kit/agent_mandate.py:128-136 | The escaped text is a JSON text of the same value |
| GoEscape.GoEscapesExactly | src/paybond_kit/agent_mandate.py:128-136 | No raw &, <, >, U+2028 or U+2029 is left, and text without them is unchanged |
| GoEscape.GoTextInjective | src/paybond_kit/agent_mandate.py:128-136 | Escaped JSON text determines the value |
| Cbor.EncodeCborMap | src/paybond_kit/agent_receipt_scitt.py:120-129 | The loop that appends pairs and sorts them computes the map encoding |
| Cbor.DecodeCborItem | src/paybond_kit/agent_receipt_scitt.py:231-270 | The decoder, with loops moving a cursor, computes the recursive decoding |
| Cbor.DecodeCborList | src/paybond_kit/agent_receipt_scitt.py:250-256 | Its loop over array items |
| Cbor.DecodeCborDict | src/paybond_kit/agent_receipt_scitt.py:258-265 | Its loop over map entries, later entries replacing earlier ones |
| CborRoundTrip.DecodeEncoded | src/paybond_kit/agent_receipt_scitt.py:231-270 | Anywhere in any data, decoding at an encoded value returns the value and the offset after it if every integer and integer key inside lies in [-65536, 65535], and fails otherwise |
| CborRoundTrip.RoundTripExactly | src/paybond_kit/agent_receipt_scitt.py:50-139 | Decoding an encoding followed by anything returns the value and exactly the encoded length if and only if every integer and integer key inside, at any depth, lies in [-65536, 65535] |
| CborUnambiguous.PrefixFree | src/paybond_kit/agent_receipt_scitt.py:50-139 | No encoding is a prefix of another one, those the decoder refuses included, and equal bytes stand for equal decoded values |
| CborRoundTrip.SortDict | src/paybond_kit/agent_receipt_scitt.py:120-129 | Sorting the entries of a map by encoded key does not change the dict they decode to, repeated keys included |
| CborRoundTrip.LargeUintRefused | src/paybond_kit/agent_receipt_scitt.py:221-228 | Integers of four bytes encode and are refused by the decoder wherever they stand |
| CborMaps.KeyUnambiguous | src/paybond_kit/agent_receipt_scitt.py:120-129 | Encoded integer and text keys together determine the key and where it ends |
| CborMaps.KeysAscend | src/paybond_kit/agent_receipt_scitt.py:120-129 | Map keys are written strictly ascending bytewise, as in section 4.2.1 of RFC 8949, with no entry lost |
| CborMaps.MapBytesIgnoreOrder | src/paybond_kit/agent_receipt_scitt.py:120-129 | The bytes of a map do not depend on the order of its entries |
| CborMaps.OneEntryExactly | src/paybond_kit/agent_receipt_scitt.py:258-265 | A map of one entry decodes exactly when both items do and the key is neither a list nor a dict, which Python cannot hash |
| CborRoundTrip.TagReadsAsMap | src/paybond_kit/agent_receipt_scitt.py:267-269 | The decoder gives the same item for an encoded tag and for the encoded two-key map of tag and value, whatever follows, or refuses both |
| CborTruncation.InsideExactlyStable | src/paybond_kit/agent_receipt_scitt.py:231-270 | On arbitrary data, the cursor of a decoded item stays inside the data exactly when no appended bytes change the result, and one appended byte already tells |
| CborTruncation.OverrunMisreads | src/paybond_kit/agent_receipt_scitt.py:243-248 | When the cursor passes the end, one more byte gives a different item with the same cursor |
| CborTruncation.TruncatedExample | src/paybond_kit/agent_receipt_scitt.py:243-248 | A two-byte input on which the cursor passes the end |
| CborCut.PrefixDecodesExactly | src/paybond_kit/agent_receipt_scitt.py:231-270 | A proper prefix of an encoding is accepted if and only if every integer inside is small and the cut lies in the body of a string written last, for text between two characters; the cursor then passes the end |
| ScittStates.HeaderStates | src/paybond_kit/agent_receipt_scitt.py:142-155 | The decoder reads the protected header as {1: -8, 15: {1: issuer, 2: subject}}, with 4: trimmed key id exactly when that is not blank, up to the last byte |
| ScittStates.SignedStates | src/paybond_kit/agent_receipt_scitt.py:189-196 | It reads the signed bytes as the list of "Signature1", header, empty bytes and payload, and they exist exactly when both fit 65535 bytes |
| ScittStates.MessageStates | src/paybond_kit/agent_receipt_scitt.py:198-206 | It reads the message as tag 18 over header, empty map, payload and signature |
| ScittStates.ExportStates | src/paybond_kit/agent_receipt_scitt.py:158-218 | A built document carries the trimmed names, folded digest and the seed's public key; its message decodes to claims stating its own issuer and receipt id, and to a JSON payload stating kind, digest and receipt id, signed by the seed |
| ScittStates.BuildSucceedsExactly | src/paybond_kit/agent_receipt_scitt.py:158-218 | Exactly when an export is built: nonblank names, two 64-digit texts, and header and payload that fit |
| ScittStates.AcceptedExactly | src/paybond_kit/agent_receipt_scitt.py:273-322 | A document is accepted if and only if kind and statement members are as required and its message holds the statement's canonical bytes and a signature its key verifies |
| Scitt.CoseDecodes | src/paybond_kit/agent_receipt_scitt.py:289-302 | The hexadecimal COSE_Sign1 message gives back protected header, payload and signature |
| Scitt.BuildVerifies | src/paybond_kit/agent_receipt_scitt.py:158-218 | Every export that is built is accepted by the verifier |
| Scitt.SigStructureInjective | src/paybond_kit/agent_receipt_scitt.py:189-196 | The signed bytes (section 4.4 of RFC 9052) determine protected header and payload |
| Scitt.SignedBytesBindStatement | src/paybond_kit/agent_receipt_scitt.py:273-322 | Accepted exports over the same signed bytes state the same thing up to key order |
| Mandate.NormalizeTokens | src/paybond_kit/agent_mandate.py:186-215 | The loop with a seen set computes the accepted, deduplicated, sorted tokens |
| Mandate.TokenSetOutput | src/paybond_kit/agent_mandate.py:186-215 | The output is strictly sorted and holds exactly the trimmed, lower-cased inputs |
| Mandate.TokenSetDependsOnSet | src/paybond_kit/agent_mandate.py:186-215 | Inputs with the same set of trimmed, lower-cased entries give the same result, errors included |
| MandateSpelling.NormalizedExactly | src/paybond_kit/agent_mandate.py:235-370 | Normalisation gives n if and only if every field of n is the same field of the input trimmed, folded, printed or listed as a strictly ascending set, within its bounds |
| Mandate.NormalizeIdempotent | src/paybond_kit/agent_mandate.py:235-370 | Normalising a normalised mandate changes nothing |
| Mandate.SigningBytesUnambiguous | src/paybond_kit/agent_mandate.py:373-411 | Two mandates have equal signing bytes exactly when they are equal |
| MandateSpelling.SignedBytesRead | src/paybond_kit/agent_mandate.py:373-411 | A JSON reader finds every member of the mandate under its name in the signed bytes |
| MandateSpelling.AcceptedExactly | src/paybond_kit/agent_mandate.py:445-487 | A signed mandate verifies as n if and only if n is its respelling, the time is before the expiry of n, algorithm and digest are right, and the key of 32 bytes verifies the signature of 64 over the digest |
| Mandate.SignedVerifiesUntilExpiry | src/paybond_kit/agent_mandate.py:424-487 | A signed mandate verifies at exactly the times before its expiry truncated to seconds |
| Mandate.VerifiedDigestBinds | src/paybond_kit/agent_mandate.py:445-487 | Verified mandates with one digest are equal, or their signing bytes collide |
| Mandate.SetsDecideDigest | src/paybond_kit/agent_mandate.py:419-421 | Reordering or repeating scopes and rails leaves result and digest unchanged |
| ReceiptLoops.NormalizeReasonCodes | src/paybond_kit/agent_receipt.py:200-210 | The loop with a seen set keeps the first occurrence of every folded code, in order |
| ReceiptLoops.NormalizeExternalAttestations | src/paybond_kit/agent_receipt.py:606-622 | The loop normalises every attestation in order or fails with the first error |
| ReceiptLoops.FindMandateAttestation | src/paybond_kit/agent_receipt.py:561-573 | The search returns an attestation of the mandate kind with the digest, and none exactly when there is none |
| ReceiptSpelling.NormalizedExactly | src/paybond_kit/agent_receipt.py:213-642 | Normalisation gives n if and only if every field of every section of n is the same field of the input trimmed, folded, printed, kept or dropped as absent, and the receipt id is the derived one |
| ReceiptWire.BytesRead | src/paybond_kit/agent_receipt.py:644-835 | A JSON reader finds exactly the present members of every section under their names and in order in the signed bytes |
| ReceiptFixpoint.NormalizesAgainExactly | src/paybond_kit/agent_receipt.py:134-295 | A normalised receipt normalises again if and only if every timestamp of the original prints back, and then the second pass only drops optional strings the first left empty |
| ReceiptBytes.BytesFixedExactly | src/paybond_kit/agent_receipt.py:644-835 | The second pass succeeds and prints the same signing bytes if and only if every timestamp of the input prints back and no attestation of it has a blank reference |
| ReceiptExample.BlankReferenceCounterexample | src/paybond_kit/agent_receipt.py:618-621 | A receipt with a reference of one space prints differently on the second pass |
| ReceiptExample.VerifiedThenRefused | src/paybond_kit/agent_receipt.py:861-931 | That receipt, signed, verifies, and what verification returns is refused the second time, short of a collision |
| ReceiptExample.StampThenRefused | src/paybond_kit/agent_receipt.py:134-136 | A signed receipt with a timestamp that does not print back and no blank reference verifies, and what verification returns is refused |
| ReceiptExample.UnpaddedYearRefused | src/paybond_kit/agent_receipt.py:134-136 | A calendar that prints the year 999 without padding, as glibc does, and the receipt it makes verify only once |
| ReceiptExample.AttachedThenRefused | src/paybond_kit/agent_receipt.py:1190-1218 | Counter-signing such a receipt succeeds; the result is refused for a blank reference, short of a collision, and for a timestamp that does not print back |
| ReceiptUnambiguous.BytesUnambiguous | src/paybond_kit/agent_receipt.py:644-835 | Two receipts have equal signing bytes exactly when they agree in every printed field, that is up to falsy optionals and the fields outside the bytes |
| ReceiptAcceptance.AcceptedExactly | src/paybond_kit/agent_receipt.py:861-931 | A receipt verifies as n if and only if n is its respelling, its key is trusted, algorithm and digest are right, and it and its counter-signature, if any, are signed over the digest |
| ReceiptAcceptance.VerifiedDigestBinds | src/paybond_kit/agent_receipt.py:861-931 | Two raw receipts that verify under one digest are spellings of receipts equal in every printed field, or the signed bytes of the two collide |
| ReceiptVerify.AttachSucceedsExactly | src/paybond_kit/agent_receipt.py:1190-1218 | Attaching succeeds exactly on a verified receipt, with a seed of at least 32 bytes and the operator the receipt names |
| ReceiptVerify.VerifiedVerifiesAgain | src/paybond_kit/agent_receipt.py:861-931 | A verified receipt verifies again if and only if every timestamp of the original prints back and no reference of it was blank, short of a collision |
| ReceiptVerify.AttachVerifies | src/paybond_kit/agent_receipt.py:1190-1218 | Attaching an operator attestation yields a receipt that verifies under the same condition |
| Chain.SortedCheck | src/paybond_kit/agent_receipt.py:1080-1111 | Sorting and walking with the last link of each run accepts exactly the sets in which no place is taken twice and every later link names the digest of its predecessor |
| Chain.WellLinkedIsChained | src/paybond_kit/agent_receipt.py:1085-1111 | Then each run carries the numbers 1 to n once each, and every prev digest is that of the link numbered just before |
| Chain.ChainedIsWellLinked | src/paybond_kit/agent_receipt.py:1085-1111 | Conversely, such sets are accepted |
| Continuity.VerifyContinuityChain | src/paybond_kit/agent_receipt.py:1067-1111 | The two loops accept exactly when every receipt with continuity normalises and the links form numbered, digest-linked runs |
| Continuity.AcceptanceIgnoresOrder | src/paybond_kit/agent_receipt.py:1067-1111 | Permuting the receipts does not change the verdict |
| Continuity.PriorLinkExactly | src/paybond_kit/agent_receipt.py:1029-1064 | Exactly when and which link is built: the folded run id and, after a prior receipt of that run or of none, its folded digest and the next number |
| Continuity.ExtendedRunAccepted | src/paybond_kit/agent_receipt.py:1029-1064 | A run grown from a first link built with no prior is accepted at every length |
| Continuity.ExtendedRunAcceptedExactly | src/paybond_kit/agent_receipt.py:1029-1111 | A run grown with continuity_from_prior is accepted if and only if its first receipt carries continuity with number 1, or it is a lone receipt without continuity |
| ChainExample.UnlinkedPriorRefused | src/paybond_kit/agent_receipt.py:1054-1059 | A receipt without continuity and its extension, which has number 2, normalise and are refused together |
| Commitment.HeadCommits | src/paybond_kit/agent_receipt.py:896-908 | Receipts with one digest in two accepted chains have the same history below them in signing bytes, or two receipts collide |
| Commitment.HeadDigestCommits | src/paybond_kit/agent_receipt.py:1067-1111 | Two sets of verified receipts of one run, accepted by the chain check, with equal head digests have the same size and the same signing bytes place by place, or two receipts collide |
| TokenHistory.ResolveSound | src/paybond_kit/mcp_capability_token_cache.py:71-81 | Over any history, an answer is the token last stored under the id and is not older than the TTL |
| TokenHistory.ResolveComplete | src/paybond_kit/mcp_capability_token_cache.py:71-81 | The last token is returned if it is within the TTL and fewer than max other ids were stored or successfully resolved since its last touch |
| TokenHistory.ResolveBounded | src/paybond_kit/mcp_capability_token_cache.py:93-95 | Conversely, an answer implies that fewer than max unexpired other ids were touched since |
| TokenExact.ResolveExactly | src/paybond_kit/mcp_capability_token_cache.py:58-95 | The last token is returned if and only if it is within the TTL and at every store since the last touch of the id fewer than max other ids were touched since and live |
| TokenHistory.RunOrdered | src/paybond_kit/mcp_capability_token_cache.py:58-95 | In every run the entries stand in order of last touch and never exceed the limit |
| TokenHistory.Lost | src/paybond_kit/mcp_capability_token_cache.py:83-95 | A stored id is absent only if its token expired or at least max other ids were touched since |
| TokenCache.McpCapabilityTokenCache.StoreToken | src/paybond_kit/mcp_capability_token_cache.py:58-69 | A blank id or token changes nothing; otherwise the new entry is last and survives eviction, and the size stays within the limit |
| TokenCache.McpCapabilityTokenCache.ResolveToken | src/paybond_kit/mcp_capability_token_cache.py:71-81 | The answer against the ghost history of all calls: the last token stored, exactly when it is within the TTL and was never crowded out |
| TokenCache.McpCapabilityTokenCache.EvictExpired | src/paybond_kit/mcp_capability_token_cache.py:83-91 | Collecting and deleting keys leaves exactly the unexpired entries in order |
| TokenCache.McpCapabilityTokenCache.EvictOverflow | src/paybond_kit/mcp_capability_token_cache.py:93-95 | Popping the oldest leaves the last max entries |
| TokenCache.AssignedAtEnd | src/paybond_kit/mcp_capability_token_cache.py:64-68 | Assigning and moving to the end keeps the other entries in order and puts the new one last |
| RateLimiter.FixedWindowRateLimiter.Allow | src/paybond_kit/mcp_http_server.py:156-166 | On every trace the decision is that of a limiter that never sweeps and sees only the earlier requests of the same key |
| RateLimiter.FixedWindowRateLimiter.MaybeSweep | src/paybond_kit/mcp_http_server.py:168-174 | Within the sweep interval nothing changes; after it exactly the buckets whose window is over go, and the sweep time is now |
| RateLimiter.SweepInvisible | src/paybond_kit/mcp_http_server.py:168-174 | Sweeping keeps the agreement with the reference, for every limit and window |
| RateLimiter.DecideAlike | src/paybond_kit/mcp_http_server.py:156-166 | A swept bucket and the reference bucket decide alike and agree afterwards |
| RateLimiter.StartsApart | src/paybond_kit/mcp_http_server.py:160-162 | Window starts of a key are at least one window apart |
| RateLimiter.WindowAdmits | src/paybond_kit/mcp_http_server.py:163-166 | Each window admits between one request and the limit |
| RateLimiter.DeniedExactly | src/paybond_kit/mcp_http_server.py:163-164 | A request is denied exactly when the last window began less than one window ago and admitted the full limit |
| RateLimiter.RunBound | src/paybond_kit/mcp_http_server.py:156-166 | In every run, any half-open interval of one window length admits at most 2 * limit - 1 requests of a key |
| RateLimiter.BurstReached | src/paybond_kit/mcp_http_server.py:156-166 | That bound is attained for every positive limit and window |
| MppFunding.ExecuteFund | src/paybond_kit/mpp_funding.py:195-281 | The loop makes a possible run of the protocol in every environment; its last completion check is unreachable |
| MppFunding.RunUnique | src/paybond_kit/mpp_funding.py:195-281 | The description of runs fixes calls, credentials and outcome |
| MppFunding.SettledExactly | src/paybond_kit/mpp_funding.py:234-281 | At most max_attempts + 2 calls; a result is returned exactly when the last answer past the opening 402 is complete and not terminally failed, and reported failed exactly when it is terminal or neither complete nor pending |
| MppFunding.ProofsFresh | src/paybond_kit/mpp_funding.py:228-264 | Every call after the first uses a proof newly issued for it |
| MppFunding.CredentialCarried | src/paybond_kit/mpp_funding.py:219-264 | A credential is made at most once, only after a first 402, and goes unchanged with all later calls and no other |
| MppFunding.PendingAfterAllPolls | src/paybond_kit/mpp_funding.py:243-254 | Pending is raised exactly after all polls were used with every answer unsettled |
| MppFunding.CallsInFull | src/paybond_kit/mpp_funding.py:195-264 | Proof and credential of every call: the given proof and none first, then the proof issued for it and, after a first 402, the trimmed credential for its selected challenge |
| MppFunding.LastAnswerDecides | src/paybond_kit/mpp_funding.py:234-281 | Once all calls are answered, past an opening 402, the last answer fixes the end: a terminal status fails, a token or funded 200 returns, a status other than 200 and 202 fails, otherwise polls run out or no proof is issued |
| MppFunding.SelectChallenge | src/paybond_kit/mpp_funding.py:116-143 | The first matching header is chosen, provided everything before it parses; the return for a single header is unreachable |
| GatewayRetry.RequestWithRetries | src/paybond_kit/gateway_retry.py:90-133 | Requests go on to the first outcome that stops, which is the result; the exits at lines 124 and 131-132 are unreachable and 133 is reached only without attempts |
| GatewayRetry.DescribesOne | src/paybond_kit/gateway_retry.py:90-133 | That description fixes requests, sleeps and result |
| GatewayRetry.RunInFull | src/paybond_kit/gateway_retry.py:62-133 | A run is the described one if and only if every outcome but the last is retried after its delay - edge delay at most 8 seconds, header at most 30, or 0.2 * 2^i plus jitter at most 5 - and the last is not retried or uses up the attempts |
| GatewayRetry.Followed | src/paybond_kit/gateway_retry.py:113-129 | Every outcome but the last is retryable, at most one edge error is followed by another request, and with attempts left a run stops only for an outcome that is not transient or a second edge error |
| GatewayRetry.EdgeDelayTaken | src/paybond_kit/gateway_retry.py:118-121 | The edge delay is the one slept exactly when it is not zero or the delay replacing it is zero |
| GatewayRetry.ZeroEdgeDelayIgnored | src/paybond_kit/gateway_retry.py:118-121 | An edge error asking for no delay is retried after its header's twenty seconds |
| GatewayRetry.SleepBounded | src/paybond_kit/gateway_retry.py:62-87 | Total sleep is at most 30 * (max_retries - 1) seconds |
| GatewayRetry.SleepReached | src/paybond_kit/gateway_retry.py:69-87 | That bound is attained |
| DevicePoll.PollDeviceToken | src/paybond_kit/login.py:369-408 | The unbounded loop terminates, and ends with the first answer that is not a poll answer, or when time is up |
| DevicePoll.DescribesOne | src/paybond_kit/login.py:381-408 | That description fixes the number of requests and the end |
| DevicePoll.DescribedInFull | src/paybond_kit/login.py:381-408 | Which answers go on polling, what every other answer concludes, and when time is up |
| DevicePoll.IntervalExactly | src/paybond_kit/login.py:369-408 | Every interval: the server's but at least 1, or 5; raised to a pending answer's hint, and by one second or to its hint by slow_down; otherwise kept |
| DevicePoll.IntervalGrows | src/paybond_kit/login.py:398-403 | The interval never shrinks, and slow_down raises it by at least one second |
| DevicePoll.SleepWithinBudget | src/paybond_kit/login.py:378-384 | The sleeps before the last request fit into max(1, expires_in) + 1 seconds |
| DevicePoll.RequestsBounded | src/paybond_kit/login.py:378-384 | At most max(1, expires_in) + 1 requests |
| DevicePoll.SlowedRequestsBounded | src/paybond_kit/login.py:401-403 | If all answers before the last are slow_down, n requests satisfy n(n+1)/2 <= max(1, expires_in) + 1 |
| EvidenceReport.ValidateEvidence | src/paybond_kit/completion_validate_evidence.py:62-164 | Every flag and list is exactly what the preset and payloads call for, drift kinds and forbidden keys in the order they are noticed, and no drift is listed exactly when every flag is good |
| EvidenceReport.ReportInFull | src/paybond_kit/completion_validate_evidence.py:62-164 | What a report says in terms of the payloads alone: staleness, canonical payload, both schema flags, missing quality fields, and the cause of each drift kind |
| EvidenceReport.QualityExactly | src/paybond_kit/completion_validate_evidence.py:127-134 | A quality field is listed exactly when the contract asks for it and the payload looked at holds no value under it |
| EvidenceReport.MissingInOrder | src/paybond_kit/completion_validate_evidence.py:127-134 | The fields are listed in the contract's order |
| EvidenceReport.CoherentReport | src/paybond_kit/completion_validate_evidence.py:84-164 | Flags and drift kinds, updated at different places, agree |
| EvidenceReport.ForbiddenHits | src/paybond_kit/completion_forbidden_fields.py:10-36 | The hits are the forbidden keys of the vendor payload and then of the canonical one, once each and in order |
| EvidenceReport.HitsExactly | src/paybond_kit/completion_forbidden_fields.py:10-36 | A key is hit exactly when it is forbidden, or a vendor key mapped to a forbidden one |
| EvidenceReport.MapVendorEvidence | src/paybond_kit/completion_resolve.py:57-69 | The loop computes the field mapping |
| EvidenceReport.MappedValues | src/paybond_kit/completion_resolve.py:57-69 | The mapped payload is a dict in which each key holds the value of the last vendor entry mapped to it, and no other key exists |
| EvidenceGate.GateKeyReads | src/paybond_kit/mcp_evidence_policy.py:44-60 | The gate key is the digest of a text in which a JSON reader finds the trimmed preset and both payloads under their names |
| EvidenceGate.KeyDecides | src/paybond_kit/mcp_evidence_policy.py:44-60 | Two submissions have one gate key exactly when presets match and payloads differ in key order only, or their digests collide |
| EvidenceGate.McpEvidenceValidationGate.ValidateAndRecord | src/paybond_kit/mcp_evidence_policy.py:133-159 | A validation joins the history with exactly the report its payloads call for, and only clean ones leave a pass |
| EvidenceGate.McpEvidenceValidationGate.RequirePass | src/paybond_kit/mcp_evidence_policy.py:109-131 | Under the strict policy a submission with a preset passes exactly when a clean validation of the same submission came before, up to a collision; that report is the one its payloads call for and has every flag good |

## Left out

- Case folding and letter classes outside ASCII: lower-casing and trimming are modelled on ASCII and the spaces of `str.strip` that `Text.IsSpace` lists.
- Calendar arithmetic: parsing and printing timestamps is a parameter. Of receipts it is assumed that a printed, second-truncated instant parses to itself or not at all, of mandates that it parses to itself; instants are integer microseconds.
- Floats, NaN and infinities in JSON and in `Retry-After` values: numbers are integers in JSON and reals for seconds.
- Lone surrogates in Python strings, which UTF-8 encoding refuses.
- Which of several simultaneous errors is raised first, and the message text: an error is one of ten kinds.
- Receipts and mandates with missing or wrongly typed keys: records have typed fields, optional where the code allows absence, and the type-coercing readers of raw mandates are not modelled.
- The JSON Schema check of receipts, forbidden receipt fields, validity tiers, operator-key registries and the expected-prior options of receipt verification.
- Receipt building and signing: receipts enter as given, signed or not.
- JSON Schema validation of evidence: a parameter that lists missing-field and type-mismatch findings.
- The completion catalogue: a parameter from preset ids to presets, where a vendor pack without its archetype counts as unknown; the merged parameters are not read by validation.
- Parsing of `WWW-Authenticate` challenges: a parameter.
- Extraction of preset and payloads from tool bodies in the evidence policy, and environment-variable parsing: easy members.
- Negative cache limits: the configuration parser refuses them, and the cache model takes a natural number.
- The environment of funding, retries and polling: requests, callbacks, cancellation and the sleep call itself are parameters or lists.
- HTTP clients, command-line tools, scaffolding, demos, ACTA projection, tool-policy lookups, commerce binding and owner disclosure.
