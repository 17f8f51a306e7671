/**
  The evidence gate: `validate_and_record` and `require_pass` over one process lifetime. The set of passes holds
  digests; the ghost history holds what was validated.
 */
module EvidenceGate {
  import opened Basics
  import opened Text
  import opened Json
  import opened JsonReader
  import opened Ordering
  import opened EvidenceReport
  import JsonDigest

  datatype Policy = Strict | Off

  function Payload(o: Option<Fields>): Json {
    if o.None? then Null else Obj(o.value)
  }

  /** The value whose digest is the gate key. */
  function KeyJson(preset: string, vendor: Option<Fields>, canonical: Option<Fields>): Json {
    Obj([("preset_id", Str(preset)), ("vendor_payload", Payload(vendor)), ("canonical_payload", Payload(canonical))])
  }

  /** `evidence_validation_gate_key` */
  function GateKey(hash: Hash, presetId: string, vendor: Option<Fields>, canonical: Option<Fields>): Result<string> {
    if Strip(presetId) == "" then Err(Missing)
    else Ok(Hex(JsonDigest.JsonValueDigest(hash, KeyJson(Strip(presetId), vendor, canonical))))
  }

  predicate IsDict(o: Option<Fields>) {
    JsonDigest.WellFormed(Payload(o))
  }

  /** The same trimmed preset, and payloads equal up to the order of object keys. */
  ghost predicate SameSubmission(p: string, v: Option<Fields>, c: Option<Fields>, p': string, v': Option<Fields>,
                                 c': Option<Fields>) {
    Strip(p) == Strip(p') && JsonDigest.Equivalent(Payload(v), Payload(v'))
      && JsonDigest.Equivalent(Payload(c), Payload(c'))
  }

  lemma ThreeKeys(a: Json, b: Json, c: Json)
    ensures var f := [("preset_id", a), ("vendor_payload", b), ("canonical_payload", c)];
            f[0].0 != f[1].0 && f[0].0 != f[2].0 && f[1].0 != f[2].0
  {
    assert |"preset_id"| == 9 && |"vendor_payload"| == 14 && |"canonical_payload"| == 17;
  }

  /** Objects over the same three distinct keys are equivalent exactly field by field. */
  lemma ThreeFields(f: Fields, g: Fields)
    requires |f| == |g| == 3 && f[0].0 == g[0].0 && f[1].0 == g[1].0 && f[2].0 == g[2].0
    requires f[0].0 != f[1].0 && f[0].0 != f[2].0 && f[1].0 != f[2].0
    ensures JsonDigest.Equivalent(Obj(f), Obj(g)) <==>
            && JsonDigest.Equivalent(f[0].1, g[0].1) && JsonDigest.Equivalent(f[1].1, g[1].1)
            && JsonDigest.Equivalent(f[2].1, g[2].1)
  {
    if JsonDigest.Equivalent(Obj(f), Obj(g)) {
      forall i | 0 <= i < 3 ensures JsonDigest.Equivalent(f[i].1, g[i].1) {
        var j :| 0 <= j < 3 && f[i].0 == g[j].0 && JsonDigest.Equivalent(f[i].1, g[j].1);
      }
    }
  }

  lemma KeyJsonDecides(p: string, v: Option<Fields>, c: Option<Fields>, p': string, v': Option<Fields>,
                       c': Option<Fields>)
    requires IsDict(v) && IsDict(c)
    ensures JsonDigest.WellFormed(KeyJson(Strip(p), v, c))
    ensures JsonDigest.Equivalent(KeyJson(Strip(p), v, c), KeyJson(Strip(p'), v', c'))
            <==> SameSubmission(p, v, c, p', v', c')
  {
    hide Strip, Payload;
    ThreeKeys(Str(Strip(p)), Payload(v), Payload(c));
    ThreeKeys(Str(Strip(p')), Payload(v'), Payload(c'));
    ThreeFields(KeyJson(Strip(p), v, c).fields, KeyJson(Strip(p'), v', c').fields);
    StringsEquivalent(Strip(p), Strip(p'));
    WellFormedThree(KeyJson(Strip(p), v, c).fields);
  }

  lemma StringsEquivalent(s: string, t: string)
    ensures JsonDigest.Equivalent(Str(s), Str(t)) <==> s == t
    ensures JsonDigest.WellFormed(Str(s))
  {
  }

  lemma WellFormedThree(f: Fields)
    requires |f| == 3 && f[0].0 != f[1].0 && f[0].0 != f[2].0 && f[1].0 != f[2].0
    requires JsonDigest.WellFormed(f[0].1) && JsonDigest.WellFormed(f[1].1) && JsonDigest.WellFormed(f[2].1)
    ensures JsonDigest.WellFormed(Obj(f))
  {
  }

  /** What is hashed: preset and payloads under their names, in ascending order of keys. */
  function NormalKey(preset: string, vendor: Option<Fields>, canonical: Option<Fields>): Json {
    Obj([("canonical_payload", JsonDigest.Normalize(Payload(canonical))), ("preset_id", Str(preset)),
         ("vendor_payload", JsonDigest.Normalize(Payload(vendor)))])
  }

  lemma KeyNames()
    ensures StringLeq("canonical_payload", "preset_id") && StringLeq("canonical_payload", "vendor_payload")
    ensures StringLeq("preset_id", "vendor_payload")
  {
  }

  lemma KeyNormal(preset: string, vendor: Option<Fields>, canonical: Option<Fields>)
    requires IsDict(vendor) && IsDict(canonical)
    ensures JsonDigest.Normalize(KeyJson(preset, vendor, canonical)) == NormalKey(preset, vendor, canonical)
  {
    hide StringLeq, JsonDigest.Normalize, Payload;
    KeyNames();
    ThreeKeys(Str(preset), Payload(vendor), Payload(canonical));
    var f, g := KeyJson(preset, vendor, canonical).fields, NormalKey(preset, vendor, canonical).fields;
    WellFormedThree(f);
    JsonDigest.NormalFormExactly(Payload(vendor), g[2].1);
    JsonDigest.NormalFormExactly(Payload(canonical), g[0].1);
    RotatedNormal(f, g);
  }

  lemma RotatedNormal(f: Fields, g: Fields)
    requires |f| == |g| == 3 && f[0].0 == g[1].0 && f[1].0 == g[2].0 && f[2].0 == g[0].0
    requires g[0].0 != g[1].0 && g[0].0 != g[2].0 && g[1].0 != g[2].0
    requires StringLeq(g[0].0, g[1].0) && StringLeq(g[0].0, g[2].0) && StringLeq(g[1].0, g[2].0)
    requires JsonDigest.WellFormed(Obj(f)) && f[0].1.Str? && g[1].1 == f[0].1
    requires JsonDigest.Equivalent(f[1].1, g[2].1) && JsonDigest.Equivalent(f[2].1, g[0].1)
    requires JsonDigest.Ascending(g[0].1) && JsonDigest.Ascending(g[2].1)
    ensures JsonDigest.Normalize(Obj(f)) == Obj(g)
  {
    hide StringLeq, JsonDigest.Normalize;
    assert JsonDigest.Equivalent(Obj(f), Obj(g));
    assert JsonDigest.Ascending(Obj(g));
    JsonDigest.NormalFormExactly(Obj(f), Obj(g));
  }

  /** The gate key is the digest of a text in which a JSON reader finds the trimmed preset and both payloads. */
  lemma GateKeyReads(hash: Hash, presetId: string, vendor: Option<Fields>, canonical: Option<Fields>)
    requires IsDict(vendor) && IsDict(canonical) && Strip(presetId) != ""
    ensures var text := JsonDigest.CanonicalBytes(KeyJson(Strip(presetId), vendor, canonical));
            && GateKey(hash, presetId, vendor, canonical) == Ok(Hex(hash(text)))
            && ReadBytes(text) == Some(NormalKey(Strip(presetId), vendor, canonical))
  {
    hide Strip, Hex, KeyJson, NormalKey, ReadBytes, Utf8Json, JsonDigest.Normalize, IsDict;
    KeyNormal(Strip(presetId), vendor, canonical);
    BytesAreJson(NormalKey(Strip(presetId), vendor, canonical));
  }

  // ----- Validations

  /** One successful call of `validate_and_record`. */
  datatype Validation = Validation(
    presetId: string, vendor: Option<Fields>, canonical: Option<Fields>, frozen: Frozen, report: Report)

  type Catalog = string -> Option<Preset>

  /** The report is the one that validating this very submission against the catalogue gives. */
  ghost predicate Genuine(catalog: Catalog, check: SchemaChecker, x: Validation) {
    && catalog(x.presetId).Some?
    && Reports(check, catalog(x.presetId).value, x.presetId, x.vendor, x.canonical, x.frozen, x.report)
  }

  predicate AllGood(r: Report) {
    r.vendorSchemaOk && r.canonicalSchemaOk && r.qualityMissing == [] && r.forbiddenPresent == [] && !r.packStale
  }

  /** `completion_evidence_validation_ok` */
  predicate Clean(r: Report) {
    r.driftKinds == []
  }

  predicate Collides(hash: Hash, x: Validation, p: string, v: Option<Fields>, c: Option<Fields>) {
    Collision(hash, JsonDigest.CanonicalBytes(KeyJson(Strip(x.presetId), x.vendor, x.canonical)),
              JsonDigest.CanonicalBytes(KeyJson(Strip(p), v, c)))
  }

  /** A clean validation of the same submission, or one whose digest collides with it. */
  ghost predicate Vouches(hash: Hash, x: Validation, p: string, v: Option<Fields>, c: Option<Fields>) {
    && Clean(x.report) && Strip(x.presetId) != ""
    && (SameSubmission(x.presetId, x.vendor, x.canonical, p, v, c) || Collides(hash, x, p, v, c))
  }

  /** Equal gate keys mean the same submission, or a collision is in hand. */
  lemma KeyDecides(hash: Hash, x: Validation, p: string, v: Option<Fields>, c: Option<Fields>)
    requires IsDict(x.vendor) && IsDict(x.canonical) && IsDict(v) && IsDict(c)
    requires Strip(x.presetId) != "" && Strip(p) != ""
    ensures GateKey(hash, x.presetId, x.vendor, x.canonical) == GateKey(hash, p, v, c) <==>
            SameSubmission(x.presetId, x.vendor, x.canonical, p, v, c) || Collides(hash, x, p, v, c)
  {
    hide Strip, KeyJson, Hex, JsonDigest.CanonicalBytes, IsDict, SameSubmission;
    var a, b := KeyJson(Strip(x.presetId), x.vendor, x.canonical), KeyJson(Strip(p), v, c);
    KeyJsonDecides(x.presetId, x.vendor, x.canonical, p, v, c);
    KeyJsonDecides(p, v, c, x.presetId, x.vendor, x.canonical);
    JsonDigest.DigestBinds(hash, a, b);
    if Hex(JsonDigest.JsonValueDigest(hash, a)) == Hex(JsonDigest.JsonValueDigest(hash, b)) {
      HexInjective(JsonDigest.JsonValueDigest(hash, a), JsonDigest.JsonValueDigest(hash, b));
    }
  }

  ghost predicate AllGenuine(catalog: Catalog, check: SchemaChecker, h: seq<Validation>) {
    forall i | 0 <= i < |h| :: IsDict(h[i].vendor) && IsDict(h[i].canonical) && Genuine(catalog, check, h[i])
  }

  predicate AllDicts(h: seq<Validation>) {
    forall i | 0 <= i < |h| :: IsDict(h[i].vendor) && IsDict(h[i].canonical)
  }

  predicate Recorded(hash: Hash, x: Validation, key: string) {
    Clean(x.report) && GateKey(hash, x.presetId, x.vendor, x.canonical) == Ok(key)
  }

  predicate PassedBy(hash: Hash, h: seq<Validation>, key: string) {
    exists i | 0 <= i < |h| :: Recorded(hash, h[i], key)
  }

  lemma PassedMeans(hash: Hash, h: seq<Validation>, p: string, v: Option<Fields>, c: Option<Fields>)
    requires AllDicts(h) && IsDict(v) && IsDict(c) && Strip(p) != ""
    ensures GateKey(hash, p, v, c).Ok?
    ensures PassedBy(hash, h, GateKey(hash, p, v, c).value) <==> Vouched(hash, h, p, v, c)
  {
    BlankRaises(hash, p, v, c);
    hide Strip, GateKey, SameSubmission, Collides, IsDict;
    var key := GateKey(hash, p, v, c).value;
    forall i | 0 <= i < |h| ensures Recorded(hash, h[i], key) <==> Vouches(hash, h[i], p, v, c) {
      BlankRaises(hash, h[i].presetId, h[i].vendor, h[i].canonical);
      if Strip(h[i].presetId) != "" {
        KeyDecides(hash, h[i], p, v, c);
      }
    }
  }

  lemma BlankRaises(hash: Hash, p: string, v: Option<Fields>, c: Option<Fields>)
    ensures GateKey(hash, p, v, c).Ok? <==> Strip(p) != ""
  {
  }

  lemma PassedGrows(hash: Hash, h: seq<Validation>, x: Validation, key: string)
    ensures PassedBy(hash, h + [x], key) <==> PassedBy(hash, h, key) || Recorded(hash, x, key)
  {
    hide Recorded;
    var t := h + [x];
    assert t[|h|] == x;
    assert forall i :: 0 <= i < |h| ==> t[i] == h[i];
    if PassedBy(hash, h, key) {
      var i :| 0 <= i < |h| && Recorded(hash, h[i], key);
      assert Recorded(hash, t[i], key);
    }
  }

  lemma GenuineDicts(catalog: Catalog, check: SchemaChecker, h: seq<Validation>)
    requires AllGenuine(catalog, check, h)
    ensures AllDicts(h)
  {
    hide Genuine, IsDict;
  }

  /** A clean report of a genuine validation has every flag good. */
  lemma CleanIsGood(catalog: Catalog, check: SchemaChecker, x: Validation)
    requires Genuine(catalog, check, x) && Clean(x.report)
    ensures AllGood(x.report)
  {
    hide FlagsExact, ListsForbidden, ListsDrift;
  }

  /** Some validation vouches for the submission. */
  ghost predicate Vouched(hash: Hash, h: seq<Validation>, p: string, v: Option<Fields>, c: Option<Fields>) {
    exists i | 0 <= i < |h| :: Vouches(hash, h[i], p, v, c)
  }

  /** A genuine validation with every flag good vouches for the submission. */
  ghost predicate WellVouched(hash: Hash, catalog: Catalog, check: SchemaChecker, h: seq<Validation>, p: string,
                              v: Option<Fields>, c: Option<Fields>)
  {
    exists i | 0 <= i < |h| :: Vouches(hash, h[i], p, v, c) && Genuine(catalog, check, h[i]) && AllGood(h[i].report)
  }

  lemma VouchedWell(hash: Hash, catalog: Catalog, check: SchemaChecker, h: seq<Validation>, p: string,
                    v: Option<Fields>, c: Option<Fields>)
    requires AllGenuine(catalog, check, h) && Vouched(hash, h, p, v, c)
    ensures WellVouched(hash, catalog, check, h, p, v, c)
  {
    hide Genuine, AllGood, SameSubmission, Collides, IsDict;
    var i :| 0 <= i < |h| && Vouches(hash, h[i], p, v, c);
    CleanIsGood(catalog, check, h[i]);
  }

  // ----- The gate

  class McpEvidenceValidationGate {
    const hash: Hash
    const catalog: Catalog
    const check: SchemaChecker
    const policy: Policy
    var passes: set<string>
    ghost var history: seq<Validation>

    /** The history holds genuine validations, and the passes are the keys of the clean ones. */
    ghost predicate Valid()
      reads this
    {
      AllGenuine(catalog, check, history) && forall key :: key in passes <==> PassedBy(hash, history, key)
    }

    constructor (hash: Hash, catalog: Catalog, check: SchemaChecker, policy: Policy)
      ensures Valid() && history == [] && this.hash == hash && this.catalog == catalog && this.check == check
              && this.policy == policy
    {
      this.hash := hash;
      this.catalog := catalog;
      this.check := check;
      this.policy := policy;
      passes := {};
      history := [];
    }

    /** `validate_and_record`: unknown presets raise, and so does a clean report on a blank preset. */
    method ValidateAndRecord(presetId: string, vendor: Option<Fields>, canonical: Option<Fields>, frozen: Frozen)
      returns (r: Result<Report>)
      requires Valid() && IsDict(vendor) && IsDict(canonical)
      modifies this`passes, this`history
      ensures Valid()
      ensures r.Ok? ==> history == old(history) + [Validation(presetId, vendor, canonical, frozen, r.value)]
      ensures r.Err? ==> history == old(history) && passes == old(passes)
      ensures r.Ok? ==> Genuine(catalog, check, Validation(presetId, vendor, canonical, frozen, r.value))
      ensures catalog(presetId).Some? && Strip(presetId) != "" ==> r.Ok?
    {
      hide Strip, GateKey, Reports, IsDict, PassedBy;
      var preset := catalog(presetId);
      if preset.None? {
        return Err(Missing);
      }
      var report := ValidateEvidence(check, preset.value, presetId, vendor, canonical, frozen);
      ghost var x := Validation(presetId, vendor, canonical, frozen, report);
      BlankRaises(hash, presetId, vendor, canonical);
      forall key
        ensures PassedBy(hash, history + [x], key) <==> PassedBy(hash, history, key) || Recorded(hash, x, key)
      {
        PassedGrows(hash, history, x, key);
      }
      if Clean(report) {
        var key := GateKey(hash, presetId, vendor, canonical);
        if key.Err? {
          return Err(key.error);
        }
        passes := passes + {key.value};
      }
      history := history + [x];
      return Ok(report);
    }

    /**
      `require_pass`: under the strict policy a submission with a preset goes through exactly when a clean
      validation of the same submission came before, up to a digest collision.
     */
    method RequirePass(presetId: string, vendor: Option<Fields>, canonical: Option<Fields>) returns (ok: bool)
      requires Valid() && IsDict(vendor) && IsDict(canonical)
      ensures ok <==> policy.Off? || Strip(presetId) == "" || Vouched(hash, history, presetId, vendor, canonical)
      ensures ok && policy.Strict? && Strip(presetId) != "" ==>
                WellVouched(hash, catalog, check, history, presetId, vendor, canonical)
    {
      hide Strip, GateKey, Vouched, WellVouched, PassedBy, IsDict, Genuine, AllGenuine, AllDicts;
      if policy.Off? {
        return true;
      }
      var preset := Strip(presetId);
      if preset == "" {
        return true;
      }
      GenuineDicts(catalog, check, history);
      PassedMeans(hash, history, presetId, vendor, canonical);
      SameKey(hash, presetId, vendor, canonical);
      var key := GateKey(hash, preset, vendor, canonical);
      ok := key.value in passes;
      if ok {
        VouchedWell(hash, catalog, check, history, presetId, vendor, canonical);
      }
    }
  }

  /** Trimming the preset first does not change the key. */
  lemma SameKey(hash: Hash, presetId: string, vendor: Option<Fields>, canonical: Option<Fields>)
    ensures GateKey(hash, Strip(presetId), vendor, canonical) == GateKey(hash, presetId, vendor, canonical)
  {
    hide Strip;
    StripTwice(presetId);
  }
}
