/**
  What a SCITT export states, read back with the decoder alone: the claims and algorithm of the protected header, the
  signed structure, the statement, the fields of the document, and exactly when building and verifying succeed.
 */
module ScittStates {
  import opened Basics
  import opened Text
  import Json
  import JsonReader
  import JsonDigest
  import opened Cbor
  import V = CborRoundTrip
  import opened Scitt

  // ----- The protected header

  /** Algorithm EdDSA (-8) under 1, the claims issuer (1) and subject (2) under 15, and under 4 the key id, if any. */
  function HeaderDict(issuer: string, subject: string, kid: Option<string>): Item {
    var claims := DictItem(map[IntItem(1) := TextItem(issuer), IntItem(2) := TextItem(subject)]);
    var dict := map[IntItem(1) := IntItem(-8), IntItem(15) := claims];
    DictItem(if kid.Some? then dict[IntItem(4) := TextItem(kid.value)] else dict)
  }

  /** The key id that is written: trimmed, or none when it is blank. */
  function WrittenKid(kid: Option<string>): Option<string> {
    if kid.None? || Strip(kid.value) == "" then None else Some(Strip(kid.value))
  }

  predicate Fits(s: string) {
    |Utf8(s)| < 0x10000
  }

  function ClaimsValue(issuer: string, subject: string): V.Value {
    V.Map([(IntKey(1), V.Tstr(issuer)), (IntKey(2), V.Tstr(subject))])
  }

  function HeaderValue(issuer: string, subject: string, kid: Option<string>): V.Value {
    V.Map([(IntKey(1), V.Int(-8)), (IntKey(15), ClaimsValue(issuer, subject))]
          + if kid.Some? then [(IntKey(4), V.Tstr(kid.value))] else [])
  }

  lemma EntriesCons(entry: (Key, V.Value), rest: seq<(Key, V.Value)>)
    requires V.Encode(entry.1).Ok? && V.EncodeEntries(rest).Ok?
    ensures V.EncodeEntries([entry] + rest)
            == Ok([(entry.0, V.Encode(entry.1).value)] + V.EncodeEntries(rest).value)
  {
    ConsParts(entry, rest);
  }

  lemma NoEntries()
    ensures V.EncodeEntries([]) == Ok([])
  {
  }

  lemma TwoEntries(a: (Key, V.Value), b: (Key, V.Value), rest: seq<(Key, V.Value)>)
    requires V.Encode(a.1).Ok? && V.Encode(b.1).Ok? && V.EncodeEntries(rest).Ok?
    ensures V.EncodeEntries([a, b] + rest)
            == Ok([(a.0, V.Encode(a.1).value), (b.0, V.Encode(b.1).value)] + V.EncodeEntries(rest).value)
  {
    hide V.Encode, V.EncodeEntries;
    EntriesCons(b, rest);
    EntriesCons(a, [b] + rest);
    assert [a] + ([b] + rest) == [a, b] + rest;
    var x, y, z := (a.0, V.Encode(a.1).value), (b.0, V.Encode(b.1).value), V.EncodeEntries(rest).value;
    assert [x] + ([y] + z) == [x, y] + z;
  }

  lemma MapStep(entries: seq<(Key, V.Value)>)
    requires V.EncodeEntries(entries).Ok?
    ensures V.Encode(V.Map(entries)) == EncodeMap(V.EncodeEntries(entries).value)
  {
  }

  lemma IntStep(n: int)
    ensures V.Encode(V.Int(n)) == EncodeInt(n)
  {
  }

  lemma TextEncodes(s: string)
    ensures EncodeTstr(s).Ok? <==> Fits(s)
    ensures V.Encode(V.Tstr(s)) == EncodeTstr(s)
  {
  }

  lemma KeysEncode()
    ensures forall n | 0 <= n < 24 :: EncodeKey(IntKey(n)) == Ok([n as Byte])
    ensures EncodeInt(-8) == Ok([0x27])
  {
  }

  lemma SmallMapEncodes(entries: seq<(Key, Bytes)>)
    requires |entries| < 24 && forall i | 0 <= i < |entries| :: entries[i].0.IntKey? && 0 <= entries[i].0.n < 24
    ensures EncodeMap(entries).Ok?
  {
    hide EncodeKey, Ordering.Sort, JoinPairs, Header;
    SmallPairsEncode(entries);
  }

  lemma {:induction false} SmallPairsEncode(entries: seq<(Key, Bytes)>)
    requires forall i | 0 <= i < |entries| :: entries[i].0.IntKey? && 0 <= entries[i].0.n < 24
    ensures EncodePairs(entries).Ok?
  {
    hide EncodeKey;
    KeysEncode();
    if entries != [] {
      SmallPairsEncode(entries[1..]);
    }
  }

  lemma ClaimsEncode(issuer: string, subject: string)
    requires Fits(issuer) && Fits(subject)
    ensures V.Encode(ClaimsValue(issuer, subject))
            == EncodeMap([(IntKey(1), EncodeTstr(issuer).value), (IntKey(2), EncodeTstr(subject).value)])
    ensures V.Encode(ClaimsValue(issuer, subject)).Ok?
  {
    hide V.Encode, V.EncodeEntries, EncodeTstr, EncodeMap;
    TextEncodes(issuer);
    TextEncodes(subject);
    NoEntries();
    var entries := ClaimsValue(issuer, subject).entries;
    TwoEntries(entries[0], entries[1], []);
    assert [entries[0], entries[1]] + [] == entries;
    MapStep(entries);
    var parts := [(IntKey(1), EncodeTstr(issuer).value), (IntKey(2), EncodeTstr(subject).value)];
    assert parts + [] == parts;
    SmallMapEncodes(parts);
  }

  lemma KidEncodes(kid: Option<string>)
    requires kid.Some? ==> Fits(kid.value)
    ensures V.EncodeEntries(if kid.Some? then [(IntKey(4), V.Tstr(kid.value))] else [])
            == Ok(if kid.Some? then [(IntKey(4), EncodeTstr(kid.value).value)] else [])
  {
    hide V.Encode, V.EncodeEntries, EncodeTstr;
    NoEntries();
    if kid.Some? {
      TextEncodes(kid.value);
      var entry := (IntKey(4), V.Tstr(kid.value));
      EntriesCons(entry, []);
      assert [entry] + [] == [entry];
      var part := (IntKey(4), EncodeTstr(kid.value).value);
      assert [part] + [] == [part];
    }
  }

  /** The header is built exactly when its texts fit, and it is the encoding of its value. */
  lemma HeaderEncodes(issuer: string, subject: string, kid: Option<string>)
    ensures ProtectedHeader(issuer, subject, kid).Ok?
            <==> Fits(issuer) && Fits(subject) && (WrittenKid(kid).Some? ==> Fits(WrittenKid(kid).value))
    ensures ProtectedHeader(issuer, subject, kid).Ok? ==>
              ProtectedHeader(issuer, subject, kid) == V.Encode(HeaderValue(issuer, subject, WrittenKid(kid)))
  {
    hide V.Encode, V.EncodeEntries, EncodeTstr, EncodeMap, EncodeInt, Strip, Fits;
    TextEncodes(issuer);
    TextEncodes(subject);
    KeysEncode();
    if kid.Some? {
      TextEncodes(Strip(kid.value));
    }
    if Fits(issuer) && Fits(subject) {
      ClaimsEncode(issuer, subject);
      if WrittenKid(kid).Some? ==> Fits(WrittenKid(kid).value) {
        HeaderFromEntries(issuer, subject, kid);
        HeaderParts(issuer, subject, WrittenKid(kid));
      }
    }
  }

  lemma HeaderFromEntries(issuer: string, subject: string, kid: Option<string>)
    requires Fits(issuer) && Fits(subject) && (WrittenKid(kid).Some? ==> Fits(WrittenKid(kid).value))
    ensures ProtectedHeader(issuer, subject, kid) == EncodeMap(HeaderEntries(issuer, subject, WrittenKid(kid)))
  {
    hide V.Encode, V.EncodeEntries, EncodeTstr, EncodeMap, EncodeInt, Strip, Fits;
    TextEncodes(issuer);
    TextEncodes(subject);
    KeysEncode();
    ClaimsEncode(issuer, subject);
    if kid.Some? {
      TextEncodes(Strip(kid.value));
    }
    var entries := [(IntKey(1), [0x27]), (IntKey(15), V.Encode(ClaimsValue(issuer, subject)).value)];
    assert entries + [] == entries;
  }

  function HeaderEntries(issuer: string, subject: string, kid: Option<string>): seq<(Key, Bytes)>
    requires Fits(issuer) && Fits(subject) && (kid.Some? ==> Fits(kid.value))
  {
    ClaimsEncode(issuer, subject);
    [(IntKey(1), [0x27]), (IntKey(15), V.Encode(ClaimsValue(issuer, subject)).value)]
    + if kid.Some? then [(IntKey(4), EncodeTstr(kid.value).value)] else []
  }

  lemma HeaderParts(issuer: string, subject: string, kid: Option<string>)
    requires Fits(issuer) && Fits(subject) && (kid.Some? ==> Fits(kid.value))
    ensures EncodeMap(HeaderEntries(issuer, subject, kid)) == V.Encode(HeaderValue(issuer, subject, kid))
    ensures EncodeMap(HeaderEntries(issuer, subject, kid)).Ok?
  {
    hide V.Encode, V.EncodeEntries, EncodeTstr, EncodeMap, EncodeInt, Fits;
    ClaimsEncode(issuer, subject);
    KidEncodes(kid);
    KeysEncode();
    IntStep(-8);
    var entries := HeaderValue(issuer, subject, kid).entries;
    TwoEntries((IntKey(1), V.Int(-8)), (IntKey(15), ClaimsValue(issuer, subject)),
               if kid.Some? then [(IntKey(4), V.Tstr(kid.value))] else []);
    MapStep(entries);
    SmallMapEncodes(HeaderEntries(issuer, subject, kid));
  }

  lemma DictCons(entry: (Key, V.Value), rest: seq<(Key, V.Value)>)
    ensures V.ToDict([entry] + rest) == map[V.KeyItem(entry.0) := V.ToItem(entry.1)] + V.ToDict(rest)
  {
    ConsParts(entry, rest);
  }

  lemma DictTwo(a: (Key, V.Value), b: (Key, V.Value), rest: seq<(Key, V.Value)>)
    ensures V.ToDict([a, b] + rest)
            == map[V.KeyItem(a.0) := V.ToItem(a.1)]
               + (map[V.KeyItem(b.0) := V.ToItem(b.1)] + V.ToDict(rest))
  {
    hide V.ToDict, V.ToItem;
    DictCons(b, rest);
    DictCons(a, [b] + rest);
    assert [a] + ([b] + rest) == [a, b] + rest;
  }

  lemma NoDict()
    ensures V.ToDict([]) == map[]
  {
  }

  lemma ClaimsItem(issuer: string, subject: string)
    ensures V.ToItem(ClaimsValue(issuer, subject))
            == DictItem(map[IntItem(1) := TextItem(issuer), IntItem(2) := TextItem(subject)])
    ensures V.Small(ClaimsValue(issuer, subject))
  {
    hide V.ToDict;
    var entries := ClaimsValue(issuer, subject).entries;
    DictTwo(entries[0], entries[1], []);
    NoDict();
    assert [entries[0], entries[1]] + [] == entries;
    assert map[IntItem(1) := TextItem(issuer)] + (map[IntItem(2) := TextItem(subject)] + map[])
        == map[IntItem(1) := TextItem(issuer), IntItem(2) := TextItem(subject)];
  }

  lemma KidDict(kid: Option<string>)
    ensures V.ToDict(if kid.Some? then [(IntKey(4), V.Tstr(kid.value))] else [])
            == if kid.Some? then map[IntItem(4) := TextItem(kid.value)] else map[]
  {
    hide V.ToDict;
    NoDict();
    if kid.Some? {
      var entry := (IntKey(4), V.Tstr(kid.value));
      DictCons(entry, []);
      assert [entry] + [] == [entry];
    }
  }

  lemma HeaderItem(issuer: string, subject: string, kid: Option<string>)
    ensures V.ToItem(HeaderValue(issuer, subject, kid)) == HeaderDict(issuer, subject, kid)
  {
    hide V.ToDict;
    ClaimsItem(issuer, subject);
    KidDict(kid);
    DictTwo((IntKey(1), V.Int(-8)), (IntKey(15), ClaimsValue(issuer, subject)),
            if kid.Some? then [(IntKey(4), V.Tstr(kid.value))] else []);
    HeaderMaps(V.ToItem(ClaimsValue(issuer, subject)), kid);
  }

  lemma HeaderMaps(claims: Item, kid: Option<string>)
    ensures map[IntItem(1) := IntItem(-8)]
            + (map[IntItem(15) := claims] + if kid.Some? then map[IntItem(4) := TextItem(kid.value)] else map[])
            == (if kid.Some? then
                  map[IntItem(1) := IntItem(-8), IntItem(15) := claims][IntItem(4) := TextItem(kid.value)]
                else map[IntItem(1) := IntItem(-8), IntItem(15) := claims])
  {
  }

  lemma HeaderSmall(issuer: string, subject: string, kid: Option<string>)
    ensures V.Small(HeaderValue(issuer, subject, kid))
  {
    ClaimsItem(issuer, subject);
    var entries := HeaderValue(issuer, subject, kid).entries;
    forall i | 0 <= i < |entries| ensures V.SmallKey(entries[i].0) && V.Small(entries[i].1) {
      assert i == 2 ==> kid.Some? && entries[i].1 == V.Tstr(kid.value);
    }
  }

  /** The decoder reads the header as EdDSA with the issuer, the subject and the trimmed key id, and nothing else. */
  lemma HeaderStates(issuer: string, subject: string, kid: Option<string>)
    requires ProtectedHeader(issuer, subject, kid).Ok?
    ensures var header := ProtectedHeader(issuer, subject, kid).value;
            DecodeItem(header, 0) == Some((HeaderDict(issuer, subject, WrittenKid(kid)), |header|))
  {
    hide V.Encode, V.ToItem, V.Small, ProtectedHeader, DecodeItem, HeaderDict, HeaderValue, WrittenKid;
    var header := ProtectedHeader(issuer, subject, kid).value;
    var v := HeaderValue(issuer, subject, WrittenKid(kid));
    HeaderEncodes(issuer, subject, kid);
    HeaderSmall(issuer, subject, WrittenKid(kid));
    HeaderItem(issuer, subject, WrittenKid(kid));
    V.RoundTripExactly(v, []);
    assert header + [] == header;
  }

  // ----- The signed structure and the message

  lemma BytesEncode(b: Bytes)
    ensures EncodeBstr(b).Ok? <==> |b| < 0x10000
    ensures V.Encode(V.Bstr(b)) == EncodeBstr(b)
  {
  }

  lemma FewItemsEncode(items: seq<Bytes>)
    requires |items| < 0x100
    ensures EncodeArray(items).Ok?
  {
  }

  lemma SmallFour(a: V.Value, b: V.Value, c: V.Value, d: V.Value)
    requires V.Small(a) && V.Small(b) && V.Small(c) && V.Small(d)
    ensures V.Small(V.Array([a, b, c, d]))
  {
    assert forall v :: v in [a, b, c, d] ==> V.Small(v);
  }

  lemma FourTexts()
    ensures EncodeTstr("Signature1").Ok? && EncodeMap([]).Ok?
    ensures EncodeBstr([]).Ok?
  {
    Utf8Length("Signature1");
    assert EncodePairs([]) == Ok([]);
  }

  lemma {:induction false} Utf8Length(s: string)
    ensures |Utf8(s)| <= 4 * |s|
  {
    if s != [] {
      Utf8Length(s[1..]);
    }
  }

  /** What is signed reads as the context, the header, no external data and the payload; it exists when both fit. */
  lemma SignedStates(header: Bytes, payload: Bytes)
    ensures SigStructure(header, payload).Ok? <==> |header| < 0x10000 && |payload| < 0x10000
    ensures SigStructure(header, payload).Ok? ==>
              var toSign := SigStructure(header, payload).value;
              DecodeItem(toSign, 0)
              == Some((ListItem([TextItem("Signature1"), BytesItem(header), BytesItem([]), BytesItem(payload)]),
                       |toSign|))
  {
    hide EncodeBstr, EncodeTstr, EncodeArray, DecodeItem, V.Encode, V.EncodeAll;
    FourTexts();
    BytesEncode(header);
    BytesEncode(payload);
    if |header| < 0x10000 && |payload| < 0x10000 {
      FewItemsEncode([EncodeTstr("Signature1").value, EncodeBstr(header).value, EncodeBstr([]).value,
                      EncodeBstr(payload).value]);
      var v := SigValue(header, payload);
      SigIsEncoding(header, payload);
      SmallFour(v.items[0], v.items[1], v.items[2], v.items[3]);
      FourItems(v.items);
      V.RoundTripExactly(v, []);
      assert V.Encode(v).value + [] == V.Encode(v).value;
    }
  }

  lemma MessageExists(header: Bytes, payload: Bytes, signature: Signature)
    ensures CoseSign1(header, payload, signature).Ok? <==> |header| < 0x10000 && |payload| < 0x10000
  {
    hide EncodeBstr, EncodeArray, EncodeMap, EncodeTag;
    FourTexts();
    BytesEncode(header);
    BytesEncode(payload);
    BytesEncode(signature);
    if |header| < 0x10000 && |payload| < 0x10000 {
      var items := [EncodeBstr(header).value, EncodeMap([]).value, EncodeBstr(payload).value,
                    EncodeBstr(signature).value];
      FewItemsEncode(items);
      TagEncodes(EncodeArray(items).value);
    }
  }

  function MessageDict(header: Bytes, payload: Bytes, signature: Bytes): Item {
    DictItem(map[TextItem("tag") := IntItem(18),
                 TextItem("value") := ListItem([BytesItem(header), DictItem(map[]), BytesItem(payload),
                                                BytesItem(signature)])])
  }

  lemma MessageItem(header: Bytes, payload: Bytes, signature: Bytes)
    ensures V.ToItem(CoseValue(header, payload, signature)) == MessageDict(header, payload, signature)
  {
    hide V.ToItems;
    FourItems(CoseValue(header, payload, signature).item.items);
    NoDict();
  }

  /** The message reads as tag 18 over header, empty map, payload and signature; header and payload must fit. */
  lemma MessageStates(header: Bytes, payload: Bytes, signature: Signature)
    ensures CoseSign1(header, payload, signature).Ok? <==> |header| < 0x10000 && |payload| < 0x10000
    ensures CoseSign1(header, payload, signature).Ok? ==>
              var message := CoseSign1(header, payload, signature).value;
              DecodeItem(message, 0) == Some((MessageDict(header, payload, signature), |message|))
  {
    hide CoseSign1, CoseValue, DecodeItem, MessageDict, V.Encode, V.Small, V.ToItem;
    MessageExists(header, payload, signature);
    if CoseSign1(header, payload, signature).Ok? {
      var v := CoseValue(header, payload, signature);
      CoseIsEncoding(header, payload, signature);
      MessageItem(header, payload, signature);
      V.RoundTripExactly(v, []);
      assert V.Encode(v).value + [] == V.Encode(v).value;
    }
  }

  lemma TagEncodes(item: Bytes)
    ensures EncodeTag(COSE_SIGN1_TAG, item).Ok?
  {
  }

  // ----- The statement

  /** The statement with its keys in the order they are signed. */
  function SignedStatement(receiptId: string, digestHex: string): Json.Json {
    Json.Obj([("kind", Json.Str("paybond.agent_receipt_scitt_statement_v1")),
              ("message_digest_sha256_hex", Json.Str(digestHex)), ("receipt_id", Json.Str(receiptId))])
  }

  lemma KeysAscend()
    ensures Ordering.StringLeq("kind", "message_digest_sha256_hex")
    ensures Ordering.StringLeq("kind", "receipt_id")
    ensures Ordering.StringLeq("message_digest_sha256_hex", "receipt_id")
    ensures "kind" != "receipt_id" && "kind" != "message_digest_sha256_hex"
    ensures "receipt_id" != "message_digest_sha256_hex"
  {
    assert |"kind"| == 4 && |"receipt_id"| == 10 && |"message_digest_sha256_hex"| == 25;
  }

  lemma StatementNormal(receiptId: string, digestHex: string)
    ensures JsonDigest.Normalize(Statement(receiptId, digestHex)) == SignedStatement(receiptId, digestHex)
  {
    hide JsonDigest.Normalize, JsonDigest.Equivalent, JsonDigest.Ascending, Ordering.StringLeq;
    KeysAscend();
    var f := Statement(receiptId, digestHex).fields;
    assert f[0].0 == "kind" && f[1].0 == "receipt_id" && f[2].0 == "message_digest_sha256_hex";
    assert f[0].1.Str? && f[1].1.Str? && f[2].1.Str?;
    RotatedNormal(f[0], f[1], f[2]);
    assert f == [f[0], f[1], f[2]];
  }

  lemma RotatedNormal(a: (string, Json.Json), c: (string, Json.Json), b: (string, Json.Json))
    requires a.1.Str? && b.1.Str? && c.1.Str? && a.0 != b.0 && a.0 != c.0 && b.0 != c.0
    requires Ordering.StringLeq(a.0, b.0) && Ordering.StringLeq(a.0, c.0) && Ordering.StringLeq(b.0, c.0)
    ensures JsonDigest.Normalize(Json.Obj([a, c, b])) == Json.Obj([a, b, c])
  {
    hide JsonDigest.Normalize, Ordering.StringLeq;
    var v, w := Json.Obj([a, c, b]), Json.Obj([a, b, c]);
    assert w.fields[0] == a && w.fields[1] == b && w.fields[2] == c;
    assert JsonDigest.Equivalent(v, w);
    JsonDigest.NormalFormExactly(v, w);
  }

  /** A JSON reader finds the kind, the digest and the receipt id in the payload. */
  lemma PayloadStates(receiptId: string, digestHex: string)
    ensures JsonReader.ReadBytes(JsonDigest.CanonicalBytes(Statement(receiptId, digestHex)))
            == Some(SignedStatement(receiptId, digestHex))
  {
    hide JsonReader.ReadBytes, Json.Utf8Json, Statement, SignedStatement, JsonDigest.Normalize;
    StatementNormal(receiptId, digestHex);
    JsonReader.BytesAreJson(SignedStatement(receiptId, digestHex));
  }

  // ----- The document

  /** Exactly when an export can be built. */
  lemma BuildSucceedsExactly(scheme: SignatureScheme, receiptId: string, digestHex: string, seedHex: string,
                             issuer: string, kid: Option<string>)
    ensures Build(scheme, receiptId, digestHex, seedHex, issuer, kid).Ok? <==>
            && Strip(receiptId) != "" && Strip(issuer) != ""
            && IsHex64(StripLower(digestHex)) && IsHex64(StripLower(seedHex))
            && ProtectedHeader(Strip(issuer), Strip(receiptId), kid).Ok?
            && |ProtectedHeader(Strip(issuer), Strip(receiptId), kid).value| < 0x10000
            && |JsonDigest.CanonicalBytes(Statement(Strip(receiptId), StripLower(digestHex)))| < 0x10000
  {
    hide Strip, StripLower, IsHex64, ProtectedHeader, SigStructure, CoseSign1, JsonDigest.CanonicalBytes, Hex,
      Statement;
    if ProtectedHeader(Strip(issuer), Strip(receiptId), kid).Ok? && ParseHex64(digestHex).Ok?
       && ParseHex64(seedHex).Ok? {
      var header := ProtectedHeader(Strip(issuer), Strip(receiptId), kid).value;
      var payload := JsonDigest.CanonicalBytes(Statement(Strip(receiptId), StripLower(digestHex)));
      SignedStates(header, payload);
      if SigStructure(header, payload).Ok? {
        MessageExists(header, payload, scheme.sign(ParseHex64(seedHex).value, SigStructure(header, payload).value));
      }
    }
  }

  /** What the three parts of a built message say, read with the decoders alone. */
  predicate PartsState(doc: ExportDoc, header: Bytes, payload: Bytes) {
    && DecodeItem(header, 0) == Some((HeaderDict(doc.issuer, doc.receiptId, doc.kid), |header|))
    && JsonReader.ReadBytes(payload) == Some(SignedStatement(doc.receiptId, doc.messageDigestHex))
  }

  /**
    The document carries the trimmed names, the folded digest and the public key of the seed; its message states its
    own issuer, receipt id, key id and digest, and is signed by the seed.
   */
  lemma ExportStates(scheme: SignatureScheme, receiptId: string, digestHex: string, seedHex: string, issuer: string,
                     kid: Option<string>, doc: ExportDoc)
    requires Build(scheme, receiptId, digestHex, seedHex, issuer, kid) == Ok(doc)
    ensures doc.kind == "paybond.agent_receipt_scitt_export_v1"
    ensures doc.receiptId == Strip(receiptId) && doc.issuer == Strip(issuer) && doc.kid == WrittenKid(kid)
    ensures doc.messageDigestHex == StripLower(digestHex) && FromHex(StripLower(seedHex)).Some?
    ensures DecodeCose(doc.coseHex).Ok?
    ensures var seed := FromHex(StripLower(seedHex)).value;
            var (header, payload, signature) := DecodeCose(doc.coseHex).value;
            && doc.publicKeyHex == Hex(scheme.publicKey(seed)) && PartsState(doc, header, payload)
            && SigStructure(header, payload).Ok?
            && signature == scheme.sign(seed, SigStructure(header, payload).value)
  {
    hide Strip, StripLower, ProtectedHeader, SigStructure, CoseSign1, JsonDigest.CanonicalBytes, Hex, FromHex,
      HeaderDict, Statement, SignedStatement, JsonReader.ReadBytes, DecodeItem, DecodeCose;
    SeedRead(seedHex);
    var header := ProtectedHeader(doc.issuer, doc.receiptId, kid).value;
    var payload := JsonDigest.CanonicalBytes(doc.statement);
    var signature := scheme.sign(ParseHex64(seedHex).value, SigStructure(header, payload).value);
    HeaderStates(doc.issuer, doc.receiptId, kid);
    PayloadStates(doc.receiptId, doc.messageDigestHex);
    CoseDecodes(header, payload, signature);
  }

  lemma SeedRead(seedHex: string)
    requires ParseHex64(seedHex).Ok?
    ensures FromHex(StripLower(seedHex)) == Some(ParseHex64(seedHex).value)
  {
    HexFromHex(StripLower(seedHex));
  }

  // ----- Acceptance

  predicate MemberAt(fields: seq<(string, Json.Json)>, key: string, w: Json.Json, i: nat)
    requires i < |fields|
  {
    fields[i] == (key, w) && forall j | 0 <= j < i :: fields[j].0 != key
  }

  /** The first member named `key` is `w`. */
  predicate Member(v: Json.Json, key: string, w: Json.Json) {
    v.Obj? && exists i | 0 <= i < |v.fields| :: MemberAt(v.fields, key, w, i)
  }

  lemma {:induction false} FieldExactly(fields: seq<(string, Json.Json)>, key: string, w: Json.Json)
    ensures Field(fields, key) == Some(w) <==> exists i | 0 <= i < |fields| :: MemberAt(fields, key, w, i)
  {
    if fields != [] {
      var rest := fields[1..];
      FieldExactly(rest, key, w);
      if fields[0].0 == key {
        assert fields[0].1 == w ==> MemberAt(fields, key, w, 0);
      } else {
        forall i | 0 <= i < |rest| ensures MemberAt(rest, key, w, i) <==> MemberAt(fields, key, w, i + 1) {
          assert forall j | 0 <= j < i :: rest[j] == fields[j + 1];
          assert forall j | 1 <= j < i + 1 :: fields[j] == rest[j - 1];
        }
        forall i | 0 <= i < |fields| && MemberAt(fields, key, w, i) ensures MemberAt(rest, key, w, i - 1) {
        }
      }
    }
  }

  /** The data hold a tagged message of four items with this header, payload and signature. */
  predicate HoldsMessage(data: Bytes, header: Bytes, payload: Bytes, signature: Bytes) {
    && DecodeItem(data, 0).Some?
    && var item := DecodeItem(data, 0).value.0;
    && item.DictItem? && TextItem("tag") in item.dict && TextItem("value") in item.dict
    && item.dict[TextItem("tag")] == IntItem(18)
    && var value := item.dict[TextItem("value")];
    && value.ListItem? && |value.items| == 4
    && value.items[0] == BytesItem(header) && value.items[2] == BytesItem(payload)
    && value.items[3] == BytesItem(signature)
  }

  lemma DecodedExactly(coseHex: string, header: Bytes, payload: Bytes, signature: Bytes)
    ensures DecodeCose(coseHex) == Ok((header, payload, signature))
            <==> FromHex(StripLower(coseHex)).Some?
                 && HoldsMessage(FromHex(StripLower(coseHex)).value, header, payload, signature)
  {
    hide FromHex, StripLower, DecodeItem;
  }

  /** The statement's members, the message and the key of a document that is accepted. */
  predicate Accepted(scheme: SignatureScheme, doc: ExportDoc, header: Bytes, payload: Bytes, signature: Bytes) {
    && doc.kind == "paybond.agent_receipt_scitt_export_v1" && IsHex64(StripLower(doc.messageDigestHex))
    && Member(doc.statement, "message_digest_sha256_hex", Json.Str(StripLower(doc.messageDigestHex)))
    && Member(doc.statement, "receipt_id", Json.Str(doc.receiptId))
    && FromHex(StripLower(doc.coseHex)).Some?
    && HoldsMessage(FromHex(StripLower(doc.coseHex)).value, header, payload, signature)
    && payload == JsonDigest.CanonicalBytes(doc.statement)
    && |header| < 0x10000 && |payload| < 0x10000 && SigStructure(header, payload).Ok?
    && IsHex64(StripLower(doc.publicKeyHex)) && FromHex(StripLower(doc.publicKeyHex)).Some?
    && scheme.verify(FromHex(StripLower(doc.publicKeyHex)).value, signature, SigStructure(header, payload).value)
  }

  lemma MatchesExactly(doc: ExportDoc, digestHex: string)
    ensures StatementMatches(doc, digestHex) <==>
            && Member(doc.statement, "message_digest_sha256_hex", Json.Str(digestHex))
            && Member(doc.statement, "receipt_id", Json.Str(doc.receiptId))
  {
    hide MemberAt;
    if doc.statement.Obj? {
      FieldExactly(doc.statement.fields, "message_digest_sha256_hex", Json.Str(digestHex));
      FieldExactly(doc.statement.fields, "receipt_id", Json.Str(doc.receiptId));
    }
  }

  lemma CheckedExactly(scheme: SignatureScheme, publicKeyHex: string, header: Bytes, payload: Bytes, signature: Bytes,
                       expected: Bytes)
    ensures CheckSignature(scheme, publicKeyHex, (header, payload, signature), expected).Ok? <==>
            && payload == expected && |header| < 0x10000 && |payload| < 0x10000 && SigStructure(header, payload).Ok?
            && IsHex64(StripLower(publicKeyHex)) && FromHex(StripLower(publicKeyHex)).Some?
            && scheme.verify(FromHex(StripLower(publicKeyHex)).value, signature, SigStructure(header, payload).value)
  {
    hide CheckSignature, SigStructure, StripLower, FromHex, IsHex64, DecodeItem;
    SignedStates(header, payload);
    if ParseHex64(publicKeyHex).Ok? {
      SeedRead(publicKeyHex);
    }
  }

  /**
    A document is accepted exactly when its kind is the supported one, its statement names its digest and receipt id,
    and its message holds the statement's canonical bytes and a signature that verifies under its key.
   */
  lemma AcceptedExactly(scheme: SignatureScheme, doc: ExportDoc)
    ensures Verify(scheme, doc).Ok? <==>
            exists header, payload, signature :: Accepted(scheme, doc, header, payload, signature)
  {
    hide CheckSignature, SigStructure, StripLower, FromHex, IsHex64, DecodeItem, StatementMatches, DecodeCose,
      HoldsMessage, Member, Hex, JsonDigest.CanonicalBytes, Accepted;
    MatchesExactly(doc, StripLower(doc.messageDigestHex));
    if Verify(scheme, doc).Ok? {
      var (header, payload, signature) := DecodeCose(doc.coseHex).value;
      AcceptedPart(scheme, doc, header, payload, signature);
    }
    if header, payload, signature :| Accepted(scheme, doc, header, payload, signature) {
      AcceptedPart(scheme, doc, header, payload, signature);
    }
  }

  lemma VerifyUnfolds(scheme: SignatureScheme, doc: ExportDoc)
    ensures Verify(scheme, doc).Ok? <==>
            && doc.kind == EXPORT_KIND && IsHex64(StripLower(doc.messageDigestHex))
            && StatementMatches(doc, StripLower(doc.messageDigestHex)) && DecodeCose(doc.coseHex).Ok?
            && CheckSignature(scheme, doc.publicKeyHex, DecodeCose(doc.coseHex).value,
                              JsonDigest.CanonicalBytes(doc.statement)).Ok?
  {
    hide CheckSignature, StripLower, IsHex64, StatementMatches, DecodeCose, Hex, JsonDigest.CanonicalBytes;
  }

  lemma AcceptedPart(scheme: SignatureScheme, doc: ExportDoc, header: Bytes, payload: Bytes, signature: Bytes)
    ensures Accepted(scheme, doc, header, payload, signature) <==>
            Verify(scheme, doc).Ok? && DecodeCose(doc.coseHex) == Ok((header, payload, signature))
  {
    hide CheckSignature, SigStructure, StripLower, FromHex, IsHex64, DecodeItem, StatementMatches, DecodeCose,
      HoldsMessage, Member, Hex, JsonDigest.CanonicalBytes, Verify;
    VerifyUnfolds(scheme, doc);
    MatchesExactly(doc, StripLower(doc.messageDigestHex));
    DecodedExactly(doc.coseHex, header, payload, signature);
    CheckedExactly(scheme, doc.publicKeyHex, header, payload, signature, JsonDigest.CanonicalBytes(doc.statement));
  }
}
