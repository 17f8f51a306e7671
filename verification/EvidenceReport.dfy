/**
  Local validation of completion evidence: `validate_completion_evidence`. Schema checking is a parameter that
  lists the kinds of drift it finds; an empty text stands for a missing one, as both are false in the code.
 */
module EvidenceReport {
  import opened Basics
  import opened Ordering
  import opened Json

  type Fields = seq<(string, Json)>

  datatype DriftKind = MissingField | TypeMismatch | PackStale | QualityFieldMissing | ForbiddenFieldPresent

  type SchemaKind = k: DriftKind | k.MissingField? || k.TypeMismatch? witness MissingField

  /** The schema document. */
  type Schema = string

  type SchemaChecker = (Schema, Fields) -> seq<SchemaKind>

  datatype Contract = Contract(apiVersion: string, schemaDigest: string, canonicalDigest: string,
                               qualityFields: seq<string>)

  datatype Preset = Preset(
    vendorPack: bool, evidenceSchema: Schema, vendorSchema: Option<Schema>, contract: Option<Contract>,
    fieldMap: map<string, string>, forbidden: seq<string>)

  datatype Frozen = Frozen(apiVersion: string, schemaDigest: string, canonicalDigest: string)

  datatype Report = Report(
    presetId: string, vendorSchemaOk: bool, canonicalSchemaOk: bool, qualityMissing: seq<string>,
    forbiddenPresent: seq<string>, packStale: bool, driftKinds: seq<DriftKind>, canonical: Option<Fields>)

  // ----- Dictionaries

  predicate HasKey(d: Fields, key: string) {
    exists i | 0 <= i < |d| :: d[i].0 == key
  }

  /** `payload.get(field) is None` */
  predicate Lacks(d: Fields, field: string) {
    forall i | 0 <= i < |d| && d[i].0 == field :: d[i].1 == Null
  }

  /** `out[key] = value` */
  function Put(d: Fields, key: string, value: Json): Fields {
    if d == [] then [(key, value)]
    else if d[0].0 == key then [(key, value)] + d[1..]
    else [d[0]] + Put(d[1..], key, value)
  }

  function Mapped(fieldMap: map<string, string>, key: string): string {
    if key in fieldMap then fieldMap[key] else key
  }

  /** A single artifact digest becomes a list. */
  function MappedValue(key: string, value: Json): Json {
    if key == "artifact_blake3_hex" && !value.Arr? then Arr([value]) else value
  }

  function MapFields(fieldMap: map<string, string>, d: Fields): Fields {
    if d == [] then []
    else
      var key, value := d[|d| - 1].0, d[|d| - 1].1;
      Put(MapFields(fieldMap, d[..|d| - 1]), Mapped(fieldMap, key), MappedValue(Mapped(fieldMap, key), value))
  }

  /** `d.get(key)` */
  function Get(d: Fields, key: string): Option<Json> {
    if d == [] then None else if d[0].0 == key then Some(d[0].1) else Get(d[1..], key)
  }

  lemma {:induction false} PutGet(d: Fields, key: string, value: Json, k: string)
    ensures Get(Put(d, key, value), k) == if k == key then Some(value) else Get(d, k)
  {
    if d != [] {
      if d[0].0 == key {
        ConsParts((key, value), d[1..]);
      } else {
        PutGet(d[1..], key, value, k);
        ConsParts(d[0], Put(d[1..], key, value));
      }
    }
  }

  lemma {:induction false} PutDistinct(d: Fields, key: string, value: Json)
    requires DistinctKeys(d)
    ensures DistinctKeys(Put(d, key, value))
    ensures forall k :: k in KeysOf(Put(d, key, value)) <==> k in KeysOf(d) || k == key
  {
    if d == [] {
      assert KeysOf([(key, value)]) == [key];
    } else {
      var tail := d[1..];
      assert forall k :: k in KeysOf(d) <==> k == d[0].0 || k in KeysOf(tail);
      assert d[0].0 !in KeysOf(tail);
      if d[0].0 != key {
        PutDistinct(tail, key, value);
        KeysCons(d[0], Put(tail, key, value));
      } else {
        KeysCons((key, value), tail);
      }
    }
  }

  predicate DistinctKeys(d: Fields) {
    NoDuplicates(KeysOf(d))
  }

  function KeysOf(d: Fields): (r: seq<string>)
    ensures |r| == |d| && forall i :: 0 <= i < |d| ==> r[i] == d[i].0
  {
    seq(|d|, i requires 0 <= i < |d| => d[i].0)
  }

  lemma KeysCons(x: (string, Json), d: Fields)
    ensures forall k :: k in KeysOf([x] + d) <==> k == x.0 || k in KeysOf(d)
    ensures DistinctKeys(d) && x.0 !in KeysOf(d) ==> DistinctKeys([x] + d)
  {
    assert KeysOf([x] + d) == [x.0] + KeysOf(d);
  }

  // ----- Lists without repetition

  /** `_push_drift_kind`: at the end, unless it is there already. */
  function Push<T(==, !new)>(s: seq<T>, x: T): (r: seq<T>)
    requires NoDuplicates(s)
    ensures NoDuplicates(r) && forall y :: y in r <==> y in s || y == x
  {
    if x in s then s else s + [x]
  }

  /** Every element in turn. */
  function PushAll<T(==, !new)>(s: seq<T>, xs: seq<T>): (r: seq<T>)
    requires NoDuplicates(s)
    ensures NoDuplicates(r) && forall y :: y in r <==> y in s || y in xs
  {
    if xs == [] then s
    else
      assert xs == xs[..|xs| - 1] + [xs[|xs| - 1]];
      Push(PushAll(s, xs[..|xs| - 1]), xs[|xs| - 1])
  }

  lemma {:induction false} PushAllAppend<T(!new)>(s: seq<T>, a: seq<T>, b: seq<T>)
    requires NoDuplicates(s)
    ensures PushAll(s, a + b) == PushAll(PushAll(s, a), b)
  {
    if b == [] {
      assert a + b == a;
    } else {
      hide Push, NoDuplicates;
      var n := |b| - 1;
      assert (a + b)[..|a + b| - 1] == a + b[..n] && (a + b)[|a + b| - 1] == b[n];
      PushAllAppend(s, a, b[..n]);
    }
  }

  lemma NothingTwice<T>()
    ensures NoDuplicates<T>([])
  {
  }

  lemma PushFive<T(!new)>(a: seq<T>, b: seq<T>, c: seq<T>, d: seq<T>, e: seq<T>)
    requires NoDuplicates<T>([]) && PushAll([], a) == a
    ensures PushAll([], a + b + c + d + e) == PushAll(PushAll(PushAll(PushAll(a, b), c), d), e)
  {
    hide NoDuplicates, Push, PushAll;
    PushAllAppend([], a, b);
    PushAllAppend([], a + b, c);
    PushAllAppend([], a + b + c, d);
    PushAllAppend([], a + b + c + d, e);
  }

  lemma InFive<T>(a: seq<T>, b: seq<T>, c: seq<T>, d: seq<T>, e: seq<T>, x: T)
    ensures x in a + b + c + d + e <==> x in a || x in b || x in c || x in d || x in e
  {
  }

  lemma PushAllOne<T(!new)>(s: seq<T>, x: T)
    requires NoDuplicates(s)
    ensures PushAll(s, [x]) == Push(s, x)
  {
    hide Push, NoDuplicates;
    assert [x][..0] == [];
    assert PushAll(s, []) == s;
  }

  /** A first list of distinct elements is kept as it is, and what it holds already is not added again. */
  lemma PushAllKeeps<T(!new)>(s: seq<T>, x: T)
    requires NoDuplicates(s)
    ensures PushAll(s, []) == s
    ensures x in s ==> PushAll(s, [x]) == s
    ensures x !in s ==> PushAll(s, [x]) == s + [x]
  {
    PushAllOne(s, x);
  }

  // ----- What the report should say

  predicate Differs(frozen: string, current: string) {
    frozen != "" && current != "" && frozen != current
  }

  predicate Outdated(p: Preset, f: Frozen) {
    && p.contract.Some?
    && var c := p.contract.value;
       Differs(f.apiVersion, c.apiVersion) || Differs(f.schemaDigest, c.schemaDigest)
         || Differs(f.canonicalDigest, c.canonicalDigest)
  }

  /** The canonical payload: given, mapped from a vendor pack, or the payload itself. */
  function Canonical(p: Preset, vendor: Option<Fields>, canonical: Option<Fields>): Option<Fields> {
    if canonical.Some? || vendor.None? then canonical
    else if p.vendorPack then Some(MapFields(p.fieldMap, vendor.value))
    else vendor
  }

  function CanonicalErrors(check: SchemaChecker, p: Preset, canonical: Option<Fields>): seq<SchemaKind> {
    if canonical.Some? then check(p.evidenceSchema, canonical.value)
    else if p.vendorPack then []
    else [MissingField]
  }

  /** The vendor schema of a stale pack is not consulted. */
  function VendorErrors(check: SchemaChecker, p: Preset, vendor: Option<Fields>, stale: bool): seq<SchemaKind> {
    if !p.vendorPack then []
    else if vendor.None? then [MissingField]
    else if p.vendorSchema.Some? && !stale then check(p.vendorSchema.value, vendor.value)
    else []
  }

  function MissingAmong(d: Fields, fields: seq<string>): (r: seq<string>)
    ensures forall f :: f in r <==> f in fields && Lacks(d, f)
  {
    if fields == [] then []
    else
      var front := MissingAmong(d, fields[..|fields| - 1]);
      var last := fields[|fields| - 1];
      assert fields == fields[..|fields| - 1] + [last];
      if Lacks(d, last) then front + [last] else front
  }

  function QualityMissing(p: Preset, vendor: Option<Fields>, canonical: Option<Fields>): seq<string> {
    var target := if vendor.Some? then vendor else canonical;
    if target.Some? && p.contract.Some? then MissingAmong(target.value, p.contract.value.qualityFields) else []
  }

  /** A vendor key that is forbidden, or maps to a forbidden one, or a forbidden canonical key. */
  predicate Forbidden(p: Preset, vendor: Option<Fields>, canonical: Option<Fields>, field: string) {
    || (vendor.Some? && HasKey(vendor.value, field)
        && (field in p.forbidden || Mapped(p.fieldMap, field) in p.forbidden))
    || (canonical.Some? && HasKey(canonical.value, field) && field in p.forbidden)
  }

  /** Why a kind of drift is reported. */
  predicate Caused(check: SchemaChecker, p: Preset, vendor: Option<Fields>, f: Frozen, r: Report, kind: DriftKind) {
    match kind
    case PackStale => r.packStale
    case QualityFieldMissing => r.qualityMissing != []
    case ForbiddenFieldPresent => r.forbiddenPresent != []
    case _ => kind in CanonicalErrors(check, p, r.canonical) || kind in VendorErrors(check, p, vendor, r.packStale)
  }

  /** No drift is reported exactly when every flag is good. */
  predicate Coherent(r: Report) {
    r.driftKinds == [] <==>
    r.vendorSchemaOk && r.canonicalSchemaOk && r.qualityMissing == [] && r.forbiddenPresent == [] && !r.packStale
  }

  predicate FlagsExact(check: SchemaChecker, p: Preset, vendor: Option<Fields>, f: Frozen, r: Report) {
    && r.packStale == Outdated(p, f)
    && (r.canonicalSchemaOk <==>
          CanonicalErrors(check, p, r.canonical) == [] && (r.canonical.Some? ==> r.forbiddenPresent == []))
    && (r.vendorSchemaOk <==>
          VendorErrors(check, p, vendor, r.packStale) == []
            && (p.vendorPack && vendor.Some? ==> r.forbiddenPresent == []))
    && r.qualityMissing == QualityMissing(p, vendor, r.canonical)
  }

  predicate ListsForbidden(p: Preset, vendor: Option<Fields>, r: Report) {
    && NoDuplicates(r.forbiddenPresent)
    && (forall i | 0 <= i < |r.forbiddenPresent| :: Forbidden(p, vendor, r.canonical, r.forbiddenPresent[i]))
    && (forall i | vendor.Some? && 0 <= i < |vendor.value| && Forbidden(p, vendor, None, vendor.value[i].0) ::
          vendor.value[i].0 in r.forbiddenPresent)
    && (forall i | r.canonical.Some? && 0 <= i < |r.canonical.value|
                   && Forbidden(p, None, r.canonical, r.canonical.value[i].0) ::
          r.canonical.value[i].0 in r.forbiddenPresent)
  }

  predicate ListsDrift(check: SchemaChecker, p: Preset, vendor: Option<Fields>, f: Frozen, r: Report) {
    NoDuplicates(r.driftKinds) && forall kind :: kind in r.driftKinds <==> Caused(check, p, vendor, f, r, kind)
  }

  function When(condition: bool, kind: DriftKind): (s: seq<DriftKind>)
    ensures NoDuplicates(s)
  {
    if condition then [kind] else []
  }

  /** Why drift is reported, in the order in which it is noticed. */
  function DriftSequence(check: SchemaChecker, p: Preset, vendor: Option<Fields>, r: Report): seq<DriftKind> {
    var canonicalErrors: seq<DriftKind> := CanonicalErrors(check, p, r.canonical);
    var vendorErrors: seq<DriftKind> := VendorErrors(check, p, vendor, r.packStale);
    When(r.packStale, PackStale) + canonicalErrors + vendorErrors
    + When(r.qualityMissing != [], QualityFieldMissing) + When(r.forbiddenPresent != [], ForbiddenFieldPresent)
  }

  /** The vendor keys that are forbidden or map to a forbidden one, in order. */
  function VendorHits(p: Preset, d: Fields): seq<string> {
    if d == [] then []
    else
      var key := d[|d| - 1].0;
      VendorHits(p, d[..|d| - 1]) + if key in p.forbidden || Mapped(p.fieldMap, key) in p.forbidden then [key] else []
  }

  /** The canonical keys that are forbidden, in order. */
  function CanonicalHits(p: Preset, d: Fields): seq<string> {
    if d == [] then []
    else
      var key := d[|d| - 1].0;
      CanonicalHits(p, d[..|d| - 1]) + if key in p.forbidden then [key] else []
  }

  function Hits(p: Preset, vendor: Option<Fields>, canonical: Option<Fields>): seq<string> {
    (match vendor case Some(v) => VendorHits(p, v) case None => [])
    + (match canonical case Some(c) => CanonicalHits(p, c) case None => [])
  }

  /** Drift kinds and forbidden keys are listed in the order of their first occurrences. */
  predicate InOrder(check: SchemaChecker, p: Preset, vendor: Option<Fields>, r: Report) {
    && r.driftKinds == PushAll([], DriftSequence(check, p, vendor, r))
    && r.forbiddenPresent == PushAll([], Hits(p, vendor, r.canonical))
  }

  /** The report of validating these payloads against this preset. */
  predicate Reports(check: SchemaChecker, p: Preset, presetId: string, vendor: Option<Fields>, payload: Option<Fields>,
                    f: Frozen, r: Report)
  {
    && r.presetId == presetId && r.canonical == Canonical(p, vendor, payload)
    && FlagsExact(check, p, vendor, f, r) && ListsForbidden(p, vendor, r) && ListsDrift(check, p, vendor, f, r)
    && Coherent(r) && InOrder(check, p, vendor, r)
  }

  // ----- The loops

  /** The loop over schema errors: each clears the flag and is pushed. */
  method PushErrors(kinds: seq<DriftKind>, errors: seq<SchemaKind>) returns (r: seq<DriftKind>, ok: bool)
    requires NoDuplicates(kinds)
    ensures NoDuplicates(r) && r == PushAll(kinds, errors)
    ensures ok <==> errors == []
  {
    r, ok := kinds, true;
    for k := 0 to |errors|
      invariant NoDuplicates(r) && r == PushAll(kinds, errors[..k])
      invariant ok <==> k == 0
    {
      ok := false;
      r := Push(r, errors[k]);
      assert errors[..k + 1] == errors[..k] + [errors[k]];
      assert errors[..k + 1][..k] == errors[..k];
    }
    assert errors[..|errors|] == errors;
  }

  /** One push for every field listed. */
  method PushForEach(kinds: seq<DriftKind>, fields: seq<string>, kind: DriftKind) returns (r: seq<DriftKind>)
    requires NoDuplicates(kinds)
    ensures NoDuplicates(r) && r == PushAll(kinds, When(fields != [], kind))
  {
    PushAllKeeps(kinds, kind);
    r := kinds;
    for k := 0 to |fields|
      invariant NoDuplicates(r) && r == if k > 0 then PushAll(kinds, [kind]) else kinds
    {
      r := Push(r, kind);
    }
  }

  /** `map_vendor_evidence_to_canonical` */
  method MapVendorEvidence(fieldMap: map<string, string>, vendor: Fields) returns (out: Fields)
    ensures out == MapFields(fieldMap, vendor)
  {
    out := [];
    for k := 0 to |vendor|
      invariant out == MapFields(fieldMap, vendor[..k])
    {
      var key := Mapped(fieldMap, vendor[k].0);
      assert vendor[..k + 1][..k] == vendor[..k];
      if key == "artifact_blake3_hex" && !vendor[k].1.Arr? {
        out := Put(out, key, Arr([vendor[k].1]));
        continue;
      }
      out := Put(out, key, vendor[k].1);
    }
    assert vendor[..|vendor|] == vendor;
  }

  /** The last vendor entry mapped to a key, if any. */
  function LastMapped(fieldMap: map<string, string>, d: Fields, k: string): Option<Json> {
    if d == [] then None
    else if Mapped(fieldMap, d[|d| - 1].0) == k then Some(d[|d| - 1].1)
    else LastMapped(fieldMap, d[..|d| - 1], k)
  }

  /**
    The mapped payload is a dict; each key holds the value of the last vendor entry mapped to it, and no other
    exists.
   */
  lemma {:induction false} MappedValues(fieldMap: map<string, string>, d: Fields, k: string)
    ensures DistinctKeys(MapFields(fieldMap, d))
    ensures var last := LastMapped(fieldMap, d, k);
            Get(MapFields(fieldMap, d), k) == if last.None? then None else Some(MappedValue(k, last.value))
  {
    if d != [] {
      var front, key, value := d[..|d| - 1], d[|d| - 1].0, d[|d| - 1].1;
      var out := MapFields(fieldMap, front);
      MappedValues(fieldMap, front, k);
      PutGet(out, Mapped(fieldMap, key), MappedValue(Mapped(fieldMap, key), value), k);
      PutDistinct(out, Mapped(fieldMap, key), MappedValue(Mapped(fieldMap, key), value));
    }
  }

  lemma {:induction false} VendorHitsExactly(p: Preset, d: Fields, x: string)
    ensures x in VendorHits(p, d) <==> HasKey(d, x) && (x in p.forbidden || Mapped(p.fieldMap, x) in p.forbidden)
  {
    hide Mapped;
    if d != [] {
      VendorHitsExactly(p, d[..|d| - 1], x);
      HasKeyLast(d, x);
    }
  }

  lemma {:induction false} CanonicalHitsExactly(p: Preset, d: Fields, x: string)
    ensures x in CanonicalHits(p, d) <==> HasKey(d, x) && x in p.forbidden
  {
    if d != [] {
      CanonicalHitsExactly(p, d[..|d| - 1], x);
      HasKeyLast(d, x);
    }
  }

  lemma HasKeyLast(d: Fields, x: string)
    requires d != []
    ensures HasKey(d, x) <==> HasKey(d[..|d| - 1], x) || d[|d| - 1].0 == x
  {
    if HasKey(d[..|d| - 1], x) {
      var i :| 0 <= i < |d| - 1 && d[..|d| - 1][i].0 == x;
      assert d[i].0 == x;
    }
    if HasKey(d, x) && d[|d| - 1].0 != x {
      var i :| 0 <= i < |d| && d[i].0 == x;
      assert d[..|d| - 1][i].0 == x;
    }
  }

  lemma HitsExactly(p: Preset, vendor: Option<Fields>, canonical: Option<Fields>, x: string)
    ensures x in Hits(p, vendor, canonical) <==> Forbidden(p, vendor, canonical, x)
  {
    hide HasKey, VendorHits, CanonicalHits, Mapped;
    if vendor.Some? {
      VendorHitsExactly(p, vendor.value, x);
    }
    if canonical.Some? {
      CanonicalHitsExactly(p, canonical.value, x);
    }
  }

  /** The keys listed are the forbidden ones. */
  lemma HitsListed(p: Preset, vendor: Option<Fields>, r: Report)
    requires r.forbiddenPresent == PushAll([], Hits(p, vendor, r.canonical))
    ensures ListsForbidden(p, vendor, r)
  {
    hide Hits, Mapped;
    forall x ensures x in r.forbiddenPresent <==> Forbidden(p, vendor, r.canonical, x) {
      HitsExactly(p, vendor, r.canonical, x);
    }
    hide NoDuplicates, HasKey;
  }

  lemma VendorStep(p: Preset, d: Fields, k: nat, hits: seq<string>)
    requires k < |d| && hits == PushAll([], VendorHits(p, d[..k]))
    ensures var key := d[k].0;
            PushAll([], VendorHits(p, d[..k + 1]))
            == if key in p.forbidden || Mapped(p.fieldMap, key) in p.forbidden then Push(hits, key) else hits
  {
    hide NoDuplicates, Push, Mapped;
    NothingTwice<string>();
    var key := d[k].0;
    assert d[..k + 1][..k] == d[..k];
    assert VendorHits(p, d[..k]) + [] == VendorHits(p, d[..k]);
    hide PushAll;
    PushAllAppend([], VendorHits(p, d[..k]), [key]);
    PushAllOne(hits, key);
  }

  lemma CanonicalStep(p: Preset, before: seq<string>, d: Fields, k: nat, hits: seq<string>)
    requires k < |d| && hits == PushAll([], before + CanonicalHits(p, d[..k]))
    ensures var key := d[k].0;
            PushAll([], before + CanonicalHits(p, d[..k + 1]))
            == if key in p.forbidden then Push(hits, key) else hits
  {
    hide NoDuplicates, Push;
    NothingTwice<string>();
    var key := d[k].0;
    assert d[..k + 1][..k] == d[..k];
    assert CanonicalHits(p, d[..k]) + [] == CanonicalHits(p, d[..k]);
    hide PushAll;
    PushAllAppend([], before + CanonicalHits(p, d[..k]), [key]);
    PushAllOne(hits, key);
    Assoc(before, CanonicalHits(p, d[..k]), [key]);
  }

  lemma {:induction false} NoHits(p: Preset, d: Fields)
    requires p.forbidden == []
    ensures VendorHits(p, d) == [] && CanonicalHits(p, d) == []
  {
    if d != [] {
      NoHits(p, d[..|d| - 1]);
    }
  }

  lemma HitsOf(p: Preset, vendor: Option<Fields>, canonical: Option<Fields>)
    ensures p.forbidden == [] ==> Hits(p, vendor, canonical) == []
    ensures Hits(p, vendor, None) == match vendor case Some(v) => VendorHits(p, v) case None => []
    ensures canonical.Some? ==>
              Hits(p, vendor, canonical) == Hits(p, vendor, None) + CanonicalHits(p, canonical.value)
  {
    hide VendorHits, CanonicalHits;
    if p.forbidden == [] {
      if vendor.Some? {
        NoHits(p, vendor.value);
      }
      if canonical.Some? {
        NoHits(p, canonical.value);
      }
    }
  }

  lemma NothingHit(p: Preset, d: Fields)
    requires d == []
    ensures VendorHits(p, d) == [] && CanonicalHits(p, d) == []
  {
  }

  /** `forbidden_fields_in_vendor_payload`, then the canonical payload's own forbidden fields. */
  method ForbiddenHits(p: Preset, vendor: Option<Fields>, canonical: Option<Fields>) returns (hits: seq<string>)
    ensures NoDuplicates(hits) && hits == PushAll([], Hits(p, vendor, canonical))
  {
    hits := [];
    HitsOf(p, vendor, canonical);
    hide Hits, VendorHits, CanonicalHits, Push, Mapped;
    if p.forbidden == [] {
      return;
    }
    if vendor.Some? {
      var v := vendor.value;
      NothingHit(p, v[..0]);
      for k := 0 to |v|
        invariant NoDuplicates(hits) && hits == PushAll([], VendorHits(p, v[..k]))
      {
        VendorStep(p, v, k, hits);
        if v[k].0 in p.forbidden || Mapped(p.fieldMap, v[k].0) in p.forbidden {
          hits := Push(hits, v[k].0);
        }
      }
      assert v[..|v|] == v;
    }
    if canonical.Some? {
      var c := canonical.value;
      ghost var before := Hits(p, vendor, None);
      NothingHit(p, c[..0]);
      assert before + [] == before;
      for k := 0 to |c|
        invariant NoDuplicates(hits) && hits == PushAll([], before + CanonicalHits(p, c[..k]))
      {
        CanonicalStep(p, before, c, k, hits);
        if c[k].0 in p.forbidden {
          hits := Push(hits, c[k].0);
        }
      }
      assert c[..|c|] == c;
    }
    if canonical.None? {
      assert Hits(p, vendor, canonical) == Hits(p, vendor, None);
    }
  }

  /** `validate_completion_evidence` for a preset found in the catalogue. */
  method ValidateEvidence(check: SchemaChecker, p: Preset, presetId: string, vendor: Option<Fields>,
                          canonicalPayload: Option<Fields>, frozen: Frozen)
    returns (r: Report)
    ensures Reports(check, p, presetId, vendor, canonicalPayload, frozen, r)
  {
    hide MapFields, Forbidden, QualityMissing, Outdated, NoDuplicates, Coherent, CanonicalErrors, VendorErrors, When,
      PushAll, Push, Hits, DriftSequence, Reports;
    var canonical := canonicalPayload;
    if canonical.None? && vendor.Some? && p.vendorPack {
      var mapped := MapVendorEvidence(p.fieldMap, vendor.value);
      canonical := Some(mapped);
    }
    if canonical.None? && !p.vendorPack && vendor.Some? {
      canonical := vendor;
    }
    var kinds, packStale := StaleKinds(p, frozen);
    var canonicalOk, vendorOk;
    kinds, canonicalOk, vendorOk := SchemaKinds(check, p, vendor, canonical, packStale, kinds);
    var quality := QualityMissing(p, vendor, canonical);
    kinds := PushForEach(kinds, quality, QualityFieldMissing);
    var hits := ForbiddenHits(p, vendor, canonical);
    if hits != [] {
      if p.vendorPack && vendor.Some? {
        vendorOk := false;
      }
      if canonical.Some? {
        canonicalOk := false;
      }
    }
    kinds := PushForEach(kinds, hits, ForbiddenFieldPresent);
    r := Report(presetId, vendorOk, canonicalOk, quality, hits, packStale, kinds, canonical);
    KindsInOrder(check, p, vendor, r);
    ReportConcluded(check, p, presetId, vendor, canonicalPayload, frozen, r);
  }

  lemma ReportConcluded(check: SchemaChecker, p: Preset, presetId: string, vendor: Option<Fields>,
                        payload: Option<Fields>, f: Frozen, r: Report)
    requires r.presetId == presetId && r.canonical == Canonical(p, vendor, payload)
    requires FlagsExact(check, p, vendor, f, r) && InOrder(check, p, vendor, r)
    ensures Reports(check, p, presetId, vendor, payload, f, r)
  {
    hide Canonical, FlagsExact, ListsForbidden, ListsDrift, Coherent, Hits, DriftSequence, PushAll;
    HitsListed(p, vendor, r);
    DriftListed(check, p, vendor, f, r);
    CoherentReport(check, p, vendor, f, r);
  }

  /** Both payloads against their schemas; a missing payload is a missing field. */
  method SchemaKinds(check: SchemaChecker, p: Preset, vendor: Option<Fields>, canonical: Option<Fields>,
                     packStale: bool,
                     before: seq<DriftKind>)
    returns (kinds: seq<DriftKind>, canonicalOk: bool, vendorOk: bool)
    requires NoDuplicates(before)
    ensures NoDuplicates(kinds)
    ensures kinds == PushAll(PushAll(before, CanonicalErrors(check, p, canonical)),
                             VendorErrors(check, p, vendor, packStale))
    ensures canonicalOk <==> CanonicalErrors(check, p, canonical) == []
    ensures vendorOk <==> VendorErrors(check, p, vendor, packStale) == []
  {
    hide NoDuplicates, PushAll, Push;
    kinds := before;
    canonicalOk, vendorOk := true, true;
    PushAllKeeps(kinds, MissingField);
    PushAllOne(kinds, MissingField);
    if canonical.Some? {
      kinds, canonicalOk := PushErrors(kinds, check(p.evidenceSchema, canonical.value));
    } else if !p.vendorPack {
      canonicalOk := false;
      kinds := Push(kinds, MissingField);
    }
    PushAllKeeps(kinds, MissingField);
    PushAllOne(kinds, MissingField);
    if p.vendorPack {
      if vendor.Some? && p.vendorSchema.Some? && !packStale {
        kinds, vendorOk := PushErrors(kinds, check(p.vendorSchema.value, vendor.value));
      } else if vendor.None? {
        vendorOk := false;
        kinds := Push(kinds, MissingField);
      }
    }
  }

  lemma WhenPushed(condition: bool, kind: DriftKind)
    ensures NoDuplicates<DriftKind>([]) && PushAll([], When(condition, kind)) == When(condition, kind)
  {
    NothingTwice<DriftKind>();
    PushAllKeeps([], kind);
  }

  lemma KindsInOrder(check: SchemaChecker, p: Preset, vendor: Option<Fields>, r: Report)
    ensures PushAll([], DriftSequence(check, p, vendor, r))
            == PushAll(PushAll(PushAll(PushAll(When(r.packStale, PackStale), CanonicalErrors(check, p, r.canonical)),
                                       VendorErrors(check, p, vendor, r.packStale)),
                               When(r.qualityMissing != [], QualityFieldMissing)),
                       When(r.forbiddenPresent != [], ForbiddenFieldPresent))
  {
    hide CanonicalErrors, VendorErrors, NoDuplicates, When, PushAll;
    WhenPushed(r.packStale, PackStale);
    var canonicalErrors: seq<DriftKind> := CanonicalErrors(check, p, r.canonical);
    var vendorErrors: seq<DriftKind> := VendorErrors(check, p, vendor, r.packStale);
    PushFive(When(r.packStale, PackStale), canonicalErrors, vendorErrors,
             When(r.qualityMissing != [], QualityFieldMissing), When(r.forbiddenPresent != [], ForbiddenFieldPresent));
  }

  lemma CausedExactly(check: SchemaChecker, p: Preset, vendor: Option<Fields>, f: Frozen, r: Report, kind: DriftKind)
    ensures kind in DriftSequence(check, p, vendor, r) <==> Caused(check, p, vendor, f, r, kind)
  {
    hide CanonicalErrors, VendorErrors, NoDuplicates;
    var canonicalErrors: seq<DriftKind> := CanonicalErrors(check, p, r.canonical);
    var vendorErrors: seq<DriftKind> := VendorErrors(check, p, vendor, r.packStale);
    if kind in canonicalErrors {
      SchemaKindsOnly(CanonicalErrors(check, p, r.canonical), kind);
    }
    if kind in vendorErrors {
      SchemaKindsOnly(VendorErrors(check, p, vendor, r.packStale), kind);
    }
    InFive(When(r.packStale, PackStale), canonicalErrors, vendorErrors,
           When(r.qualityMissing != [], QualityFieldMissing),
           When(r.forbiddenPresent != [], ForbiddenFieldPresent), kind);
  }

  /** The kinds listed are those that have a cause. */
  lemma DriftListed(check: SchemaChecker, p: Preset, vendor: Option<Fields>, f: Frozen, r: Report)
    requires r.driftKinds == PushAll([], DriftSequence(check, p, vendor, r))
    ensures ListsDrift(check, p, vendor, f, r)
  {
    hide DriftSequence, Caused, NoDuplicates;
    NothingTwice<DriftKind>();
    forall kind ensures kind in r.driftKinds <==> Caused(check, p, vendor, f, r, kind) {
      CausedExactly(check, p, vendor, f, r, kind);
    }
  }

  lemma SchemaKindsOnly(s: seq<SchemaKind>, kind: DriftKind)
    requires kind in s
    ensures kind.MissingField? || kind.TypeMismatch?
  {
  }

  /** The three comparisons with what was frozen. */
  method StaleKinds(p: Preset, frozen: Frozen) returns (kinds: seq<DriftKind>, stale: bool)
    ensures stale == Outdated(p, frozen) && kinds == When(stale, PackStale) && NoDuplicates(kinds)
  {
    kinds, stale := [], false;
    if p.contract.Some? && Differs(frozen.apiVersion, p.contract.value.apiVersion) {
      stale, kinds := true, Push(kinds, PackStale);
    }
    if p.contract.Some? && Differs(frozen.schemaDigest, p.contract.value.schemaDigest) {
      stale, kinds := true, Push(kinds, PackStale);
    }
    if p.contract.Some? && Differs(frozen.canonicalDigest, p.contract.value.canonicalDigest) {
      stale, kinds := true, Push(kinds, PackStale);
    }
  }

  /** No drift means every flag is good, although flags and drift are updated at different places. */
  lemma CoherentReport(check: SchemaChecker, p: Preset, vendor: Option<Fields>, f: Frozen, r: Report)
    requires FlagsExact(check, p, vendor, f, r) && ListsDrift(check, p, vendor, f, r)
    ensures Coherent(r)
  {
    hide QualityMissing, Outdated;
    var ce, ve := CanonicalErrors(check, p, r.canonical), VendorErrors(check, p, vendor, r.packStale);
    assert ce != [] ==> Caused(check, p, vendor, f, r, ce[0]);
    assert ve != [] ==> Caused(check, p, vendor, f, r, ve[0]);
    if r.driftKinds == [] {
      assert !Caused(check, p, vendor, f, r, PackStale);
      assert !Caused(check, p, vendor, f, r, QualityFieldMissing);
      assert !Caused(check, p, vendor, f, r, ForbiddenFieldPresent);
    } else {
      assert r.driftKinds[0] in r.driftKinds;
      assert Caused(check, p, vendor, f, r, r.driftKinds[0]);
    }
  }

  // ----- The report in full

  /** A frozen text and the catalogue's, both present, disagree. */
  predicate StaleText(frozen: string, current: string) {
    |frozen| > 0 && |current| > 0 && frozen != current
  }

  predicate StalePack(p: Preset, f: Frozen) {
    match p.contract
    case None => false
    case Some(c) =>
      || StaleText(f.apiVersion, c.apiVersion) || StaleText(f.schemaDigest, c.schemaDigest)
      || StaleText(f.canonicalDigest, c.canonicalDigest)
  }

  /** The payload whose quality fields are looked at: the vendor's, or else the canonical one. */
  function QualityTarget(vendor: Option<Fields>, canonical: Option<Fields>): Fields {
    match vendor
    case Some(v) => v
    case None => match canonical case Some(c) => c case None => []
  }

  /** The kinds of schema drift: of the canonical payload, and of the vendor payload of a pack that is not stale. */
  predicate SchemaDrift(check: SchemaChecker, p: Preset, vendor: Option<Fields>, r: Report, kind: DriftKind) {
    || (r.canonical.Some? && kind in check(p.evidenceSchema, r.canonical.value))
    || (r.canonical.None? && !p.vendorPack && kind == MissingField)
    || (p.vendorPack && vendor.None? && kind == MissingField)
    || (p.vendorPack && vendor.Some? && p.vendorSchema.Some? && !r.packStale
        && kind in check(p.vendorSchema.value, vendor.value))
  }

  lemma StaleExactly(p: Preset, f: Frozen)
    ensures StalePack(p, f) <==> Outdated(p, f)
  {
  }

  lemma MissingAlone(d: Fields, field: string)
    ensures MissingAmong(d, [field]) == if Lacks(d, field) then [field] else []
  {
    hide Lacks;
    assert [field][..0] == [];
    assert MissingAmong(d, []) == [];
  }

  /** Quality fields are listed in the contract's order: lists are gone through piece by piece. */
  lemma {:induction false} MissingInOrder(d: Fields, a: seq<string>, b: seq<string>)
    ensures MissingAmong(d, a + b) == MissingAmong(d, a) + MissingAmong(d, b)
  {
    if b == [] {
      assert a + b == a;
    } else {
      hide Lacks;
      var n := |b| - 1;
      assert (a + b)[..|a + b| - 1] == a + b[..n] && (a + b)[|a + b| - 1] == b[n];
      MissingInOrder(d, a, b[..n]);
      Assoc(MissingAmong(d, a), MissingAmong(d, b[..n]), [b[n]]);
    }
  }

  /** A field is listed exactly when the contract asks for it and every entry under it is null. */
  lemma QualityExactly(p: Preset, vendor: Option<Fields>, canonical: Option<Fields>, field: string)
    ensures field in QualityMissing(p, vendor, canonical) <==>
            && p.contract.Some? && field in p.contract.value.qualityFields && (vendor.Some? || canonical.Some?)
            && forall e | e in QualityTarget(vendor, canonical) :: e.0 == field ==> e.1 == Null
  {
    LacksExactly(QualityTarget(vendor, canonical), field);
    hide Lacks;
  }

  lemma LacksExactly(d: Fields, field: string)
    ensures Lacks(d, field) <==> forall e | e in d :: e.0 == field ==> e.1 == Null
  {
    if forall e | e in d :: e.0 == field ==> e.1 == Null {
      forall i | 0 <= i < |d| && d[i].0 == field ensures d[i].1 == Null {
        assert d[i] in d;
      }
    }
  }

  /**
    What a report says, in terms of the payloads alone: staleness, the canonical payload, the two schema flags, the
    quality fields without a value, and every kind of drift.
   */
  lemma ReportInFull(check: SchemaChecker, p: Preset, presetId: string, vendor: Option<Fields>,
                     payload: Option<Fields>, f: Frozen, r: Report)
    requires Reports(check, p, presetId, vendor, payload, f, r)
    ensures r.presetId == presetId && (r.packStale <==> StalePack(p, f))
    ensures r.canonical == match payload
                           case Some(_) => payload
                           case None => if vendor.None? || !p.vendorPack then vendor
                                        else Some(MapFields(p.fieldMap, vendor.value))
    ensures r.qualityMissing == QualityMissing(p, vendor, r.canonical)
    ensures MissingField in r.driftKinds <==> SchemaDrift(check, p, vendor, r, MissingField)
    ensures TypeMismatch in r.driftKinds <==> SchemaDrift(check, p, vendor, r, TypeMismatch)
    ensures PackStale in r.driftKinds <==> StalePack(p, f)
    ensures QualityFieldMissing in r.driftKinds <==> |r.qualityMissing| > 0
    ensures ForbiddenFieldPresent in r.driftKinds <==> |r.forbiddenPresent| > 0
    ensures r.canonicalSchemaOk <==>
            && (r.canonical.Some? ==> |check(p.evidenceSchema, r.canonical.value)| + |r.forbiddenPresent| == 0)
            && (r.canonical.None? ==> p.vendorPack)
    ensures r.vendorSchemaOk <==>
            || !p.vendorPack
            || (&& vendor.Some? && |r.forbiddenPresent| == 0
                && (p.vendorSchema.Some? && !StalePack(p, f) ==>
                      |check(p.vendorSchema.value, vendor.value)| == 0))
  {
    hide MapFields, QualityMissing, Outdated, StalePack, ListsForbidden, NoDuplicates, Coherent, InOrder;
    StaleExactly(p, f);
  }
}
