/**
  Key-sorting normalisation of JSON values and the digest over the normalised text
  (`normalize_json`, `json_value_digest`, and the identical `_canonicalize_json`).
 */
module JsonDigest {
  import opened Basics
  import opened Ordering
  import opened Json
  import opened JsonReader

  predicate KeyLeq(a: (string, Json), b: (string, Json)) {
    StringLeq(a.0, b.0)
  }

  predicate DistinctKeys(fields: seq<(string, Json)>) {
    forall i, j :: 0 <= i < j < |fields| ==> fields[i].0 != fields[j].0
  }

  /** Every object inside is a dict: no key twice. */
  predicate WellFormed(v: Json)
    decreases v
  {
    match v
    case Arr(items) => forall i | 0 <= i < |items| :: WellFormed(items[i])
    case Obj(fields) => DistinctKeys(fields) && forall i | 0 <= i < |fields| :: WellFormed(fields[i].1)
    case _ => true
  }

  function Normalize(v: Json): Json
    decreases v
  {
    match v
    case Arr(items) => Arr(seq(|items|, i requires 0 <= i < |items| => Normalize(items[i])))
    case Obj(fields) =>
      Obj(Sort(KeyLeq, seq(|fields|, i requires 0 <= i < |fields| => (fields[i].0, Normalize(fields[i].1)))))
    case _ => v
  }

  function NormalizeField(field: (string, Json)): (string, Json) {
    (field.0, Normalize(field.1))
  }

  /** The same value up to the order of object keys. */
  ghost predicate Equivalent(a: Json, b: Json)
    decreases a
  {
    match a
    case Arr(s) =>
      b.Arr? && |s| == |b.items| && forall i | 0 <= i < |s| :: Equivalent(s[i], b.items[i])
    case Obj(f) =>
      && b.Obj? && |f| == |b.fields|
      && forall i | 0 <= i < |f| ::
           exists j | 0 <= j < |b.fields| :: f[i].0 == b.fields[j].0 && Equivalent(f[i].1, b.fields[j].1)
    case _ => a == b
  }

  lemma KeyOrder()
    ensures TotalPreorder(KeyLeq)
    ensures forall a, b :: KeyLeq(a, b) && KeyLeq(b, a) ==> a.0 == b.0
  {
    StringOrder();
  }

  function Normalized(fields: seq<(string, Json)>): (r: seq<(string, Json)>)
    ensures |r| == |fields|
    ensures forall i :: 0 <= i < |r| ==> r[i] == NormalizeField(fields[i])
  {
    seq(|fields|, i requires 0 <= i < |fields| => (fields[i].0, Normalize(fields[i].1)))
  }

  lemma NormalizeObj(fields: seq<(string, Json)>)
    ensures Normalize(Obj(fields)) == Obj(Sort(KeyLeq, Normalized(fields)))
  {
    assert Normalized(fields) ==
           seq(|fields|, i requires 0 <= i < |fields| => (fields[i].0, Normalize(fields[i].1)));
  }

  lemma NormalizedAppend(fields: seq<(string, Json)>, k: nat)
    requires k < |fields|
    ensures Normalized(fields[..k + 1]) == Normalized(fields[..k]) + [(fields[k].0, Normalize(fields[k].1))]
  {
    hide Normalize;
    assert fields[..k + 1] == fields[..k] + [fields[k]];
  }

  /** The recursive loop of `normalize_json`: sort the keys, then fill `out` key by key. */
  method NormalizeJson(v: Json) returns (r: Json)
    ensures r == Normalize(v)
    decreases v
  {
    match v
    case Arr(items) =>
      var out := [];
      for k := 0 to |items|
        invariant out == seq(k, i requires 0 <= i < k => Normalize(items[i]))
      {
        var item := NormalizeJson(items[k]);
        out := out + [item];
      }
      r := Arr(out);
    case Obj(fields) =>
      hide Sort;
      var sorted := Sort(KeyLeq, fields);
      SortedFields(fields);
      var out := [];
      for k := 0 to |sorted|
        invariant out == Normalized(sorted[..k])
      {
        assert sorted[k] in fields;
        var value := NormalizeJson(sorted[k].1);
        out := out + [(sorted[k].0, value)];
        NormalizedAppend(sorted, k);
      }
      assert sorted[..|sorted|] == sorted;
      r := Obj(out);
    case _ =>
      r := v;
  }

  /** Sorting first and normalising the values afterwards comes to the same. */
  lemma SortedFields(fields: seq<(string, Json)>)
    ensures forall x :: x in Sort(KeyLeq, fields) <==> x in fields
    ensures Normalize(Obj(fields)) == Obj(Normalized(Sort(KeyLeq, fields)))
  {
    KeyOrder();
    SortSorts(KeyLeq, fields);
    SameElements(Sort(KeyLeq, fields), fields);
    SortCommutesWithMap(KeyLeq, KeyLeq, NormalizeField, fields);
    assert MapSeq(NormalizeField, fields) == Normalized(fields);
    assert MapSeq(NormalizeField, Sort(KeyLeq, fields)) == Normalized(Sort(KeyLeq, fields));
    NormalizeObj(fields);
  }

  lemma {:induction false} IncludedSameLength<T>(a: seq<T>, b: seq<T>)
    requires |a| == |b|
    requires forall i, j :: 0 <= i < j < |a| ==> a[i] != a[j]
    requires forall i :: 0 <= i < |a| ==> a[i] in b
    ensures multiset(a) == multiset(b)
  {
    if a == [] {
    } else {
      assert a[0] in b;
      var j :| 0 <= j < |b| && b[j] == a[0];
      var rest := b[..j] + b[j + 1..];
      assert b == b[..j] + [b[j]] + b[j + 1..];
      forall i | 0 <= i < |a[1..]| ensures a[1..][i] in rest {
        assert a[i + 1] in b && a[i + 1] != b[j];
      }
      IncludedSameLength(a[1..], rest);
      assert a == [a[0]] + a[1..];
    }
  }

  lemma {:induction false} EquivalentSameNormal(a: Json, b: Json)
    requires WellFormed(a) && WellFormed(b) && Equivalent(a, b)
    ensures Normalize(a) == Normalize(b)
    decreases a
  {
    match a
    case Arr(s) =>
      forall i | 0 <= i < |s| ensures Normalize(s[i]) == Normalize(b.items[i]) {
        EquivalentSameNormal(s[i], b.items[i]);
      }
    case Obj(f) =>
      var g := b.fields;
      NormalizeObj(f);
      NormalizeObj(g);
      forall i | 0 <= i < |f| ensures Normalized(f)[i] in Normalized(g) {
        var j :| 0 <= j < |g| && f[i].0 == g[j].0 && Equivalent(f[i].1, g[j].1);
        EquivalentSameNormal(f[i].1, g[j].1);
        assert Normalized(g)[j] == Normalized(f)[i];
      }
      IncludedSameLength(Normalized(f), Normalized(g));
      KeyOrder();
      SortIgnoresOrder(KeyLeq, Normalized(f), Normalized(g));
    case _ =>
  }

  lemma {:induction false} SameNormalEquivalent(a: Json, b: Json)
    requires Normalize(a) == Normalize(b)
    ensures Equivalent(a, b)
    decreases a
  {
    match a
    case Arr(s) =>
      var t := b.items;
      assert |s| == |Normalize(a).items| == |Normalize(b).items| == |t|;
      forall i | 0 <= i < |s| ensures Equivalent(s[i], t[i]) {
        assert Normalize(a).items[i] == Normalize(s[i]) && Normalize(b).items[i] == Normalize(t[i]);
        SameNormalEquivalent(s[i], t[i]);
      }
    case Obj(f) =>
      var g := b.fields;
      SameSortedFields(f, g);
      forall i | 0 <= i < |f|
        ensures exists j | 0 <= j < |g| :: f[i].0 == g[j].0 && Equivalent(f[i].1, g[j].1)
      {
        assert Normalized(f)[i] in Normalized(g);
        var j :| 0 <= j < |g| && Normalized(g)[j] == Normalized(f)[i];
        SameNormalEquivalent(f[i].1, g[j].1);
      }
    case _ =>
  }

  lemma SameSortedFields(f: seq<(string, Json)>, g: seq<(string, Json)>)
    requires Normalize(Obj(f)) == Normalize(Obj(g))
    ensures |f| == |g| && forall x :: x in Normalized(f) <==> x in Normalized(g)
  {
    NormalizeObj(f);
    NormalizeObj(g);
    KeyOrder();
    SortSorts(KeyLeq, Normalized(f));
    SortSorts(KeyLeq, Normalized(g));
    SameElements(Normalized(f), Normalized(g));
  }

  /** Normalisation identifies exactly the values that differ in key order only. */
  lemma NormalizeDecidesEquivalence(a: Json, b: Json)
    requires WellFormed(a) && WellFormed(b)
    ensures Normalize(a) == Normalize(b) <==> Equivalent(a, b)
  {
    if Equivalent(a, b) {
      EquivalentSameNormal(a, b);
    }
    if Normalize(a) == Normalize(b) {
      SameNormalEquivalent(a, b);
    }
  }

  // ----- The normal form is the equivalent value with ascending keys

  /** In every object inside, each key comes strictly before the next by code point. */
  predicate Ascending(v: Json)
    decreases v
  {
    match v
    case Arr(items) => forall i | 0 <= i < |items| :: Ascending(items[i])
    case Obj(fields) =>
      && (forall i, j | 0 <= i < j < |fields| :: fields[i].0 != fields[j].0 && StringLeq(fields[i].0, fields[j].0))
      && (forall i | 0 <= i < |fields| :: Ascending(fields[i].1))
    case _ => true
  }

  lemma {:induction false} SortSorted<T>(leq: (T, T) -> bool, s: seq<T>)
    requires Sorted(leq, s)
    ensures Sort(leq, s) == s
  {
    if s != [] {
      SortSorted(leq, s[1..]);
      assert s == [s[0]] + s[1..];
    }
  }

  lemma {:induction false} AscendingFixed(v: Json)
    requires Ascending(v)
    ensures Normalize(v) == v && WellFormed(v)
    decreases v
  {
    match v
    case Arr(items) =>
      forall i | 0 <= i < |items| ensures Normalize(items[i]) == items[i] && WellFormed(items[i]) {
        AscendingFixed(items[i]);
      }
      assert Normalize(v).items == items;
    case Obj(fields) =>
      forall i | 0 <= i < |fields| ensures NormalizeField(fields[i]) == fields[i] && WellFormed(fields[i].1) {
        AscendingFixed(fields[i].1);
      }
      NormalizeObj(fields);
      assert Normalized(fields) == fields;
      SortSorted(KeyLeq, fields);
    case _ =>
  }

  lemma SortedDistinct(fields: seq<(string, Json)>)
    requires DistinctKeys(fields)
    ensures DistinctKeys(Sort(KeyLeq, fields))
    ensures Sorted(KeyLeq, Sort(KeyLeq, fields))
    ensures multiset(Sort(KeyLeq, fields)) == multiset(fields)
  {
    hide KeyLeq, Sort;
    KeyOrder();
    SortSorts(KeyLeq, fields);
    PermutedDistinct(fields, Sort(KeyLeq, fields));
  }

  lemma PermutedDistinct(a: seq<(string, Json)>, b: seq<(string, Json)>)
    requires DistinctKeys(a) && multiset(a) == multiset(b)
    ensures DistinctKeys(b)
  {
    forall i, j | 0 <= i < j < |b| ensures b[i].0 != b[j].0 {
      assert b[i] in multiset(b) && b[j] in multiset(b);
      assert b[i] in a && b[j] in a;
      OnceIn(a, b[i]);
      if b[i] == b[j] {
        TwiceIn(b, i, j);
      }
    }
  }

  lemma {:induction false} NormalAscends(v: Json)
    requires WellFormed(v)
    ensures Ascending(Normalize(v))
    decreases v
  {
    match v
    case Arr(items) =>
      forall i | 0 <= i < |items| ensures Ascending(Normalize(items[i])) {
        NormalAscends(items[i]);
      }
    case Obj(fields) =>
      var normal := Normalized(fields);
      forall i | 0 <= i < |fields| ensures Ascending(normal[i].1) {
        NormalAscends(fields[i].1);
      }
      NormalizeObj(fields);
      SortedDistinct(normal);
      FieldsAscend(normal, Sort(KeyLeq, normal));
    case _ =>
  }

  lemma FieldsAscend(normal: seq<(string, Json)>, sorted: seq<(string, Json)>)
    requires forall i | 0 <= i < |normal| :: Ascending(normal[i].1)
    requires DistinctKeys(sorted) && Sorted(KeyLeq, sorted) && multiset(sorted) == multiset(normal)
    ensures Ascending(Obj(sorted))
  {
    hide StringLeq;
    forall i | 0 <= i < |sorted| ensures Ascending(sorted[i].1) {
      assert sorted[i] in multiset(sorted);
      assert sorted[i] in normal;
    }
    forall i, j | 0 <= i < j < |sorted|
      ensures sorted[i].0 != sorted[j].0 && StringLeq(sorted[i].0, sorted[j].0)
    {
      assert KeyLeq(sorted[i], sorted[j]);
    }
  }

  /** The normal form is the one equivalent value whose keys ascend at every level. */
  lemma NormalFormExactly(v: Json, w: Json)
    requires WellFormed(v)
    ensures Normalize(v) == w <==> Equivalent(v, w) && Ascending(w)
  {
    hide Normalize, Equivalent, Ascending, WellFormed;
    NormalAscends(v);
    AscendingFixed(Normalize(v));
    SameNormalEquivalent(v, Normalize(v));
    if Equivalent(v, w) && Ascending(w) {
      AscendingFixed(w);
      EquivalentSameNormal(v, w);
    }
  }

  /** The bytes that are hashed: compact text of the normalised value. */
  function CanonicalBytes(v: Json): Bytes {
    Utf8Json(Normalize(v))
  }

  function JsonValueDigest(hash: Hash, v: Json): Digest {
    hash(CanonicalBytes(v))
  }

  lemma CanonicalBytesDecideEquivalence(a: Json, b: Json)
    requires WellFormed(a) && WellFormed(b)
    ensures CanonicalBytes(a) == CanonicalBytes(b) <==> Equivalent(a, b)
  {
    NormalizeDecidesEquivalence(a, b);
    if CanonicalBytes(a) == CanonicalBytes(b) {
      Utf8JsonInjective(Normalize(a), Normalize(b));
    }
  }

  /** Equal digests mean equal values up to key order, or the two hashed texts collide. */
  lemma DigestBinds(hash: Hash, a: Json, b: Json)
    requires WellFormed(a) && WellFormed(b)
    ensures JsonValueDigest(hash, a) == JsonValueDigest(hash, b) <==>
            Equivalent(a, b) || Collision(hash, CanonicalBytes(a), CanonicalBytes(b))
  {
    CanonicalBytesDecideEquivalence(a, b);
  }
}
