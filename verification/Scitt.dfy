/**
  SCITT export of a receipt digest: `build_agent_receipt_scitt_export` and
  `verify_agent_receipt_scitt_export`, a COSE_Sign1 message (sections 4.2 and 4.4 of RFC 9052)
  over the CBOR codec.
 */
module Scitt {
  import opened Basics
  import opened Text
  import Json
  import JsonDigest
  import opened Cbor
  import V = CborRoundTrip
  import CborUnambiguous

  const EXPORT_KIND := "paybond.agent_receipt_scitt_export_v1"
  const STATEMENT_KIND := "paybond.agent_receipt_scitt_statement_v1"
  const COSE_ALG_EDDSA := -8
  const COSE_HEADER_ALG := 1
  const COSE_HEADER_KID := 4
  const COSE_HEADER_CWT_CLAIMS := 15
  const CWT_CLAIM_ISS := 1
  const CWT_CLAIM_SUB := 2
  const COSE_SIGN1_TAG := 18

  datatype ExportDoc = ExportDoc(
    kind: string, receiptId: string, messageDigestHex: string, publicKeyHex: string, issuer: string,
    coseHex: string, statement: Json.Json, kid: Option<string>)

  // ----- Building

  function ProtectedHeader(issuer: string, subject: string, kid: Option<string>): Result<Bytes> {
    var iss :- EncodeTstr(issuer);
    var sub :- EncodeTstr(subject);
    var claims :- EncodeMap([(IntKey(CWT_CLAIM_ISS), iss), (IntKey(CWT_CLAIM_SUB), sub)]);
    var alg :- EncodeInt(COSE_ALG_EDDSA);
    var entries := [(IntKey(COSE_HEADER_ALG), alg), (IntKey(COSE_HEADER_CWT_CLAIMS), claims)];
    if kid.Some? && Strip(kid.value) != "" then
      var kidText :- EncodeTstr(Strip(kid.value));
      EncodeMap(entries + [(IntKey(COSE_HEADER_KID), kidText)])
    else EncodeMap(entries)
  }

  /** The bytes a COSE_Sign1 signature covers. */
  function SigStructure(protectedHeader: Bytes, payload: Bytes): Result<Bytes> {
    var context :- EncodeTstr("Signature1");
    var header :- EncodeBstr(protectedHeader);
    var external :- EncodeBstr([]);
    var body :- EncodeBstr(payload);
    EncodeArray([context, header, external, body])
  }

  /** The tag-18 four-element array. */
  function CoseSign1(protectedHeader: Bytes, payload: Bytes, signature: Bytes): Result<Bytes> {
    var header :- EncodeBstr(protectedHeader);
    var unprotected :- EncodeMap([]);
    var body :- EncodeBstr(payload);
    var sig :- EncodeBstr(signature);
    var message :- EncodeArray([header, unprotected, body, sig]);
    EncodeTag(COSE_SIGN1_TAG, message)
  }

  function Statement(receiptId: string, digestHex: string): Json.Json {
    Json.Obj([("kind", Json.Str(STATEMENT_KIND)), ("receipt_id", Json.Str(receiptId)),
              ("message_digest_sha256_hex", Json.Str(digestHex))])
  }

  /** The signed message for one statement. */
  function SignStatement(scheme: SignatureScheme, seed: Bytes, issuer: string, receiptId: string, kid: Option<string>,
                         statement: Json.Json): Result<Bytes> {
    var payload := JsonDigest.CanonicalBytes(statement);
    var header :- ProtectedHeader(issuer, receiptId, kid);
    var toSign :- SigStructure(header, payload);
    CoseSign1(header, payload, scheme.sign(seed, toSign))
  }

  function Build(scheme: SignatureScheme, receiptId: string, digestHex: string, seedHex: string, issuer: string,
                 kid: Option<string>): Result<ExportDoc> {
    var named := Strip(receiptId) != "" && Strip(issuer) != "";
    :- Require(named, Missing);
    var digest :- ParseHex64(digestHex);
    var seed :- ParseHex64(seedHex);
    var statement := Statement(Strip(receiptId), Hex(digest));
    var cose :- SignStatement(scheme, seed, Strip(issuer), Strip(receiptId), kid, statement);
    Ok(ExportDoc(EXPORT_KIND, Strip(receiptId), Hex(digest), Hex(scheme.publicKey(seed)), Strip(issuer), Hex(cose),
                 statement, if kid.Some? && Strip(kid.value) != "" then Some(Strip(kid.value)) else None))
  }

  // ----- Verifying

  function Field(fields: seq<(string, Json.Json)>, key: string): Option<Json.Json> {
    if fields == [] then None
    else if fields[0].0 == key then Some(fields[0].1)
    else Field(fields[1..], key)
  }

  predicate StatementMatches(doc: ExportDoc, digestHex: string) {
    && doc.statement.Obj?
    && Field(doc.statement.fields, "message_digest_sha256_hex") == Some(Json.Str(digestHex))
    && Field(doc.statement.fields, "receipt_id") == Some(Json.Str(doc.receiptId))
  }

  /** Protected header, payload and signature of a decoded COSE_Sign1 message. */
  function CoseParts(item: Item): Result<(Bytes, Bytes, Bytes)> {
    var tagged := item.DictItem? && TextItem("tag") in item.dict
      && item.dict[TextItem("tag")] == IntItem(COSE_SIGN1_TAG);
    :- Require(tagged, Malformed);
    :- Require(TextItem("value") in item.dict && item.dict[TextItem("value")].ListItem?, Malformed);
    var cose := item.dict[TextItem("value")].items;
    :- Require(|cose| == 4, Malformed);
    :- Require(cose[0].BytesItem? && cose[2].BytesItem? && cose[3].BytesItem?, Malformed);
    Ok((cose[0].b, cose[2].b, cose[3].b))
  }

  function DecodeCose(coseHex: string): Result<(Bytes, Bytes, Bytes)> {
    var data := FromHex(StripLower(coseHex));
    if data.None? then Err(Malformed)
    else
      var decoded := DecodeItem(data.value, 0);
      if decoded.None? then Err(Malformed) else CoseParts(decoded.value.0)
  }

  function CheckSignature(scheme: SignatureScheme, publicKeyHex: string, parts: (Bytes, Bytes, Bytes), payload: Bytes)
    : (r: Result<()>)
    ensures r.Ok? <==>
              && parts.1 == payload && SigStructure(parts.0, parts.1).Ok? && ParseHex64(publicKeyHex).Ok?
              && scheme.verify(ParseHex64(publicKeyHex).value, parts.2, SigStructure(parts.0, parts.1).value)
  {
    hide SigStructure, ParseHex64;
    :- Require(parts.1 == payload, Mismatch);
    var toVerify :- SigStructure(parts.0, parts.1);
    var publicKey :- ParseHex64(publicKeyHex);
    :- Require(scheme.verify(publicKey, parts.2, toVerify), BadSignature);
    Ok(())
  }

  function Verify(scheme: SignatureScheme, doc: ExportDoc): Result<()> {
    var supported := doc.kind == EXPORT_KIND;
    :- Require(supported, Unsupported);
    var digest :- ParseHex64(doc.messageDigestHex);
    :- Require(StatementMatches(doc, Hex(digest)), Mismatch);
    var parts :- DecodeCose(doc.coseHex);
    CheckSignature(scheme, doc.publicKeyHex, parts, JsonDigest.CanonicalBytes(doc.statement))
  }

  // ----- The message decodes to its parts

  function CoseValue(protectedHeader: Bytes, payload: Bytes, signature: Bytes): V.Value {
    V.Tag(COSE_SIGN1_TAG, V.Array([V.Bstr(protectedHeader), V.Map([]), V.Bstr(payload), V.Bstr(signature)]))
  }

  lemma {:induction false} EncodeAllCons(first: V.Value, rest: seq<V.Value>)
    ensures V.EncodeAll([first] + rest)
            == if V.Encode(first).Err? then Err(V.Encode(first).error)
               else if V.EncodeAll(rest).Err? then Err(V.EncodeAll(rest).error)
               else Ok([V.Encode(first).value] + V.EncodeAll(rest).value)
  {
    ConsParts(first, rest);
  }

  lemma EncodeFour(a: V.Value, b: V.Value, c: V.Value, d: V.Value)
    requires V.Encode(a).Ok? && V.Encode(b).Ok? && V.Encode(c).Ok? && V.Encode(d).Ok?
    ensures V.Encode(V.Array([a, b, c, d]))
            == EncodeArray([V.Encode(a).value, V.Encode(b).value, V.Encode(c).value, V.Encode(d).value])
  {
    EncodeAllFour(a, b, c, d);
    ArrayStep([a, b, c, d]);
  }

  lemma ArrayStep(items: seq<V.Value>)
    requires V.EncodeAll(items).Ok?
    ensures V.Encode(V.Array(items)) == EncodeArray(V.EncodeAll(items).value)
  {
  }

  lemma EncodeAllFour(a: V.Value, b: V.Value, c: V.Value, d: V.Value)
    requires V.Encode(a).Ok? && V.Encode(b).Ok? && V.Encode(c).Ok? && V.Encode(d).Ok?
    ensures V.EncodeAll([a, b, c, d])
            == Ok([V.Encode(a).value, V.Encode(b).value, V.Encode(c).value, V.Encode(d).value])
  {
    hide V.Encode, V.EncodeAll;
    EncodeAllCons(a, [b, c, d]);
    EncodeAllCons(b, [c, d]);
    EncodeAllCons(c, [d]);
    EncodeAllCons(d, []);
    EncodeAllNil();
    assert [a] + [b, c, d] == [a, b, c, d] && [b] + [c, d] == [b, c, d] && [c] + [d] == [c, d] && [d] + [] == [d];
    var w, x, y, z := V.Encode(a).value, V.Encode(b).value, V.Encode(c).value, V.Encode(d).value;
    assert [w] + [x, y, z] == [w, x, y, z] && [x] + [y, z] == [x, y, z] && [y] + [z] == [y, z] && [z] + [] == [z];
  }

  lemma EncodeAllNil()
    ensures V.EncodeAll([]) == Ok([])
  {
  }

  lemma EncodeScalars(b: Bytes, s: string)
    ensures V.Encode(V.Bstr(b)) == EncodeBstr(b)
    ensures V.Encode(V.Tstr(s)) == EncodeTstr(s)
    ensures V.Encode(V.Map([])) == EncodeMap([])
  {
  }

  lemma TagStep(tag: nat, item: V.Value)
    requires V.Encode(item).Ok?
    ensures V.Encode(V.Tag(tag, item)) == EncodeTag(tag, V.Encode(item).value)
  {
  }

  lemma CoseIsEncoding(protectedHeader: Bytes, payload: Bytes, signature: Bytes)
    requires CoseSign1(protectedHeader, payload, signature).Ok?
    ensures V.Encode(CoseValue(protectedHeader, payload, signature)) == CoseSign1(protectedHeader, payload, signature)
    ensures V.Small(CoseValue(protectedHeader, payload, signature))
  {
    hide V.Encode, EncodeBstr, EncodeMap, EncodeArray, EncodeTag;
    EncodeScalars(protectedHeader, "");
    EncodeScalars(payload, "");
    EncodeScalars(signature, "");
    EncodeFour(V.Bstr(protectedHeader), V.Map([]), V.Bstr(payload), V.Bstr(signature));
    TagStep(COSE_SIGN1_TAG, CoseValue(protectedHeader, payload, signature).item);
    CoseSmall(protectedHeader, payload, signature);
  }

  lemma CoseSmall(protectedHeader: Bytes, payload: Bytes, signature: Bytes)
    ensures V.Small(CoseValue(protectedHeader, payload, signature))
  {
    var items := [V.Bstr(protectedHeader), V.Map([]), V.Bstr(payload), V.Bstr(signature)];
    assert V.Small(items[0]) && V.Small(items[1]) && V.Small(items[2]) && V.Small(items[3]);
    assert V.Small(V.Array(items));
  }

  lemma CoseItem(protectedHeader: Bytes, payload: Bytes, signature: Bytes)
    ensures CoseParts(V.ToItem(CoseValue(protectedHeader, payload, signature)))
            == Ok((protectedHeader, payload, signature))
  {
    var items := [V.Bstr(protectedHeader), V.Map([]), V.Bstr(payload), V.Bstr(signature)];
    var value := V.ToItem(V.Array(items));
    FourItems(items);
    assert |"tag"| != |"value"|;
  }

  lemma FourItems(items: seq<V.Value>)
    requires |items| == 4
    ensures V.ToItems(items) == [V.ToItem(items[0]), V.ToItem(items[1]), V.ToItem(items[2]), V.ToItem(items[3])]
  {
    assert items[1..][1..] == items[2..] && items[2..][1..] == items[3..] && items[3..][1..] == [];
    assert V.ToItems(items[3..]) == [V.ToItem(items[3])] + V.ToItems([]);
    assert V.ToItems(items[2..]) == [V.ToItem(items[2])] + V.ToItems(items[3..]);
    assert V.ToItems(items[1..]) == [V.ToItem(items[1])] + V.ToItems(items[2..]);
  }

  /** The hexadecimal message gives back the same protected header, payload and signature. */
  lemma CoseDecodes(protectedHeader: Bytes, payload: Bytes, signature: Bytes)
    requires CoseSign1(protectedHeader, payload, signature).Ok?
    ensures DecodeCose(Hex(CoseSign1(protectedHeader, payload, signature).value))
            == Ok((protectedHeader, payload, signature))
  {
    hide CoseSign1, CoseParts, DecodeItem, V.Encode, V.ToItem, V.Small, Hex, FromHex, StripLower;
    var data := CoseSign1(protectedHeader, payload, signature).value;
    var v := CoseValue(protectedHeader, payload, signature);
    HexFolded(Hex(data));
    FoldedFixed(Hex(data));
    FromHexRoundTrip(data);
    CoseIsEncoding(protectedHeader, payload, signature);
    V.RoundTripExactly(v, []);
    assert data + [] == data;
    CoseItem(protectedHeader, payload, signature);
  }

  // ----- Main results

  /** Every export that `Build` returns is accepted by `Verify`. */
  lemma BuildVerifies(scheme: SignatureScheme, receiptId: string, digestHex: string, seedHex: string, issuer: string,
                      kid: Option<string>)
    requires scheme.Correct()
    requires Build(scheme, receiptId, digestHex, seedHex, issuer, kid).Ok?
    ensures Verify(scheme, Build(scheme, receiptId, digestHex, seedHex, issuer, kid).value) == Ok(())
  {
    hide Strip, Hex, ParseHex64, CoseSign1, SigStructure, ProtectedHeader, DecodeCose, Statement, StatementMatches;
    var doc := Build(scheme, receiptId, digestHex, seedHex, issuer, kid).value;
    var digest, seed := ParseHex64(digestHex).value, ParseHex64(seedHex).value;
    var payload := JsonDigest.CanonicalBytes(doc.statement);
    var header := ProtectedHeader(Strip(issuer), Strip(receiptId), kid).value;
    var toSign := SigStructure(header, payload).value;
    ParseHex64OfHex(digest);
    ParseHex64OfHex(scheme.publicKey(seed));
    BuiltStatement(doc, digest);
    CoseDecodes(header, payload, scheme.sign(seed, toSign));
    assert scheme.verify(scheme.publicKey(seed), scheme.sign(seed, toSign), toSign);
  }

  lemma BuiltStatement(doc: ExportDoc, digest: Digest)
    requires doc.statement == Statement(doc.receiptId, Hex(digest))
    ensures StatementMatches(doc, Hex(digest))
  {
    var f := doc.statement.fields;
    assert |"kind"| != |"receipt_id"| && |"kind"| != |"message_digest_sha256_hex"|;
    assert |"receipt_id"| != |"message_digest_sha256_hex"|;
    assert f[0].0 == "kind" && f[1].0 == "receipt_id" && f[2].0 == "message_digest_sha256_hex";
    FieldSkip(f, "receipt_id");
    FieldSkip(f, "message_digest_sha256_hex");
    FieldSkip(f[1..], "message_digest_sha256_hex");
    assert f[1..][1..] == f[2..];
  }

  lemma FieldSkip(fields: seq<(string, Json.Json)>, key: string)
    requires fields != [] && fields[0].0 != key
    ensures Field(fields, key) == Field(fields[1..], key)
  {
  }

  function SigValue(protectedHeader: Bytes, payload: Bytes): V.Value {
    V.Array([V.Tstr("Signature1"), V.Bstr(protectedHeader), V.Bstr([]), V.Bstr(payload)])
  }

  lemma SigIsEncoding(protectedHeader: Bytes, payload: Bytes)
    requires SigStructure(protectedHeader, payload).Ok?
    ensures V.Encode(SigValue(protectedHeader, payload)) == SigStructure(protectedHeader, payload)
  {
    hide V.Encode, EncodeBstr, EncodeTstr, EncodeArray;
    EncodeScalars(protectedHeader, "Signature1");
    EncodeScalars(payload, "");
    EncodeScalars([], "");
    EncodeFour(V.Tstr("Signature1"), V.Bstr(protectedHeader), V.Bstr([]), V.Bstr(payload));
  }

  /** The signed bytes determine protected header and payload. */
  lemma SigStructureInjective(header: Bytes, payload: Bytes, header': Bytes, payload': Bytes)
    requires SigStructure(header, payload).Ok? && SigStructure(header, payload) == SigStructure(header', payload')
    ensures header == header' && payload == payload'
  {
    hide V.Encode, V.Small, SigStructure;
    SigIsEncoding(header, payload);
    SigIsEncoding(header', payload');
    var v, w := SigValue(header, payload), SigValue(header', payload');
    CborUnambiguous.PrefixFree(v, w, [], []);
    FourItems(v.items);
    FourItems(w.items);
    assert V.ToItem(v).items[1] == V.ToItem(w).items[1] && V.ToItem(v).items[3] == V.ToItem(w).items[3];
  }

  /** The bytes whose signature `Verify` checks. */
  function SignedBytes(doc: ExportDoc): Result<Bytes> {
    var parts :- DecodeCose(doc.coseHex);
    SigStructure(parts.0, parts.1)
  }

  /** What acceptance establishes about the decoded message. */
  lemma VerifiedParts(scheme: SignatureScheme, doc: ExportDoc)
    requires Verify(scheme, doc) == Ok(())
    ensures DecodeCose(doc.coseHex).Ok? && ParseHex64(doc.publicKeyHex).Ok?
    ensures IsHex64(StripLower(doc.messageDigestHex)) && StatementMatches(doc, StripLower(doc.messageDigestHex))
    ensures var parts := DecodeCose(doc.coseHex).value;
            && parts.1 == JsonDigest.CanonicalBytes(doc.statement)
            && SigStructure(parts.0, parts.1).Ok?
            && scheme.verify(ParseHex64(doc.publicKeyHex).value, parts.2, SigStructure(parts.0, parts.1).value)
  {
    hide Verify, SigStructure, DecodeCose, JsonDigest.CanonicalBytes, ParseHex64, CheckSignature, StripLower,
      StatementMatches;
    SignatureChecked(scheme, doc);
  }

  lemma SignatureChecked(scheme: SignatureScheme, doc: ExportDoc)
    requires Verify(scheme, doc) == Ok(())
    ensures DecodeCose(doc.coseHex).Ok?
    ensures ParseHex64(doc.messageDigestHex).Ok? && StatementMatches(doc, Hex(ParseHex64(doc.messageDigestHex).value))
    ensures CheckSignature(scheme, doc.publicKeyHex, DecodeCose(doc.coseHex).value,
            JsonDigest.CanonicalBytes(doc.statement)).Ok?
  {
    hide SigStructure, DecodeCose, JsonDigest.CanonicalBytes, ParseHex64, StatementMatches, EXPORT_KIND, CheckSignature,
      Hex;
  }

  /** Accepted exports over the same signed bytes state the same thing, up to the order of statement keys. */
  lemma SignedBytesBindStatement(scheme: SignatureScheme, scheme': SignatureScheme, doc: ExportDoc, doc': ExportDoc)
    requires Verify(scheme, doc) == Ok(()) && Verify(scheme', doc') == Ok(())
    requires SignedBytes(doc) == SignedBytes(doc')
    requires JsonDigest.WellFormed(doc.statement) && JsonDigest.WellFormed(doc'.statement)
    ensures SignedBytes(doc).Ok?
    ensures JsonDigest.Equivalent(doc.statement, doc'.statement)
  {
    hide SigStructure, DecodeCose, Verify, JsonDigest.CanonicalBytes;
    VerifiedParts(scheme, doc);
    VerifiedParts(scheme', doc');
    var p, q := DecodeCose(doc.coseHex).value, DecodeCose(doc'.coseHex).value;
    SigStructureInjective(p.0, p.1, q.0, q.1);
    JsonDigest.CanonicalBytesDecideEquivalence(doc.statement, doc'.statement);
  }
}
