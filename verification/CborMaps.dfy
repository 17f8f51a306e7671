/** The bytes of encoded keys and maps: keys are unambiguous, ascend, and hide the order of the entries. */
module CborMaps {
  import opened Basics
  import opened Ordering
  import opened Text
  import opened Cbor
  import opened CborRoundTrip

  lemma LargeUintInjective(a: int, b: int)
    requires 0x10000 <= a < 0x100000000 && 0x10000 <= b < 0x100000000
    requires EncodeInt(a) == EncodeInt(b)
    ensures a == b
  {
    FourBytes(a);
    FourBytes(b);
    var p, q := EncodeInt(a).value, EncodeInt(b).value;
    assert p[1] == q[1] && p[2] == q[2] && p[3] == q[3] && p[4] == q[4];
  }

  lemma FourBytes(n: int)
    requires 0x10000 <= n < 0x100000000
    ensures var p := EncodeInt(n).value;
            n == p[1] as int * 0x1000000 + p[2] as int * 0x10000 + p[3] as int * 0x100 + p[4] as int
  {
    assert n / 0x100 == n / 0x10000 * 0x100 + n / 0x100 % 0x100;
    assert n / 0x10000 == n / 0x1000000 * 0x100 + n / 0x10000 % 0x100;
  }

  /** Encoded integers followed by anything determine the integer and where it ends, large ones included. */
  lemma IntUnambiguous(a: int, b: int, x: Bytes, y: Bytes)
    requires EncodeInt(a).Ok? && EncodeInt(b).Ok? && EncodeInt(a).value + x == EncodeInt(b).value + y
    ensures a == b && x == y
  {
    hide DecodeItem, EncodeInt;
    var p, q := EncodeInt(a).value, EncodeInt(b).value;
    var data := p + x;
    assert data[0..0 + |p|] == p && data[0..0 + |q|] == q;
    IntOutcome(data, 0, a);
    IntOutcome(data, 0, b);
    if !SmallInt(a) {
      FiveBytes(a);
      FiveBytes(b);
      assert p == data[..5] == q;
      LargeUintInjective(a, b);
    }
    CancelPrefix(p, x, y);
  }

  lemma FiveBytes(n: int)
    requires EncodeInt(n).Ok? && !SmallInt(n)
    ensures 0x10000 <= n < 0x100000000 && |EncodeInt(n).value| == 5
  {
  }

  lemma TextUnambiguous(s: string, t: string, x: Bytes, y: Bytes)
    requires EncodeTstr(s).Ok? && EncodeTstr(t).Ok? && EncodeTstr(s).value + x == EncodeTstr(t).value + y
    ensures s == t && x == y
  {
    hide DecodeItem, EncodeTstr;
    var p, q := EncodeTstr(s).value, EncodeTstr(t).value;
    var data := p + x;
    assert data[0..0 + |p|] == p && data[0..0 + |q|] == q;
    TstrReads(data, 0, s);
    TstrReads(data, 0, t);
    CancelPrefix(p, x, y);
  }

  lemma FirstByteOfKey(key: Key, x: Bytes)
    requires EncodeKey(key).Ok?
    ensures var data := EncodeKey(key).value + x; data != [] && (data[0] / 32 == 3 <==> key.TextKey?)
  {
    hide Utf8;
  }

  /** Encoded keys, integers and texts together, determine the key and where it ends. */
  lemma KeyUnambiguous(a: Key, b: Key, x: Bytes, y: Bytes)
    requires EncodeKey(a).Ok? && EncodeKey(b).Ok? && EncodeKey(a).value + x == EncodeKey(b).value + y
    ensures a == b && x == y
  {
    FirstByteOfKey(a, x);
    FirstByteOfKey(b, y);
    hide EncodeInt, EncodeTstr;
    match a
    case IntKey(n) => IntUnambiguous(n, b.n, x, y);
    case TextKey(s) => TextUnambiguous(s, b.s, x, y);
  }

  lemma KeysInjective(a: Key, b: Key)
    requires EncodeKey(a).Ok? && EncodeKey(a) == EncodeKey(b)
    ensures a == b
  {
    hide EncodeKey;
    KeyUnambiguous(a, b, [], []);
  }

  predicate DistinctEntryKeys(entries: seq<(Key, Bytes)>) {
    forall i, j :: 0 <= i < j < |entries| ==> entries[i].0 != entries[j].0
  }

  lemma {:induction false} PairsOf(entries: seq<(Key, Bytes)>)
    requires EncodePairs(entries).Ok?
    ensures forall i :: 0 <= i < |entries| ==>
              EncodeKey(entries[i].0) == Ok(EncodePairs(entries).value[i].0)
                && entries[i].1 == EncodePairs(entries).value[i].1
  {
    if entries != [] {
      PairsOf(entries[1..]);
      ConsParts((EncodeKey(entries[0].0).value, entries[0].1), EncodePairs(entries[1..]).value);
      forall i | 0 <= i < |entries|
        ensures EncodeKey(entries[i].0) == Ok(EncodePairs(entries).value[i].0)
        ensures entries[i].1 == EncodePairs(entries).value[i].1
      {
        if i > 0 {
          assert entries[i] == entries[1..][i - 1];
          assert EncodePairs(entries).value[i] == EncodePairs(entries[1..]).value[i - 1];
        }
      }
    }
  }

  lemma PairsSeparated(entries: seq<(Key, Bytes)>)
    requires EncodePairs(entries).Ok? && DistinctEntryKeys(entries)
    ensures var pairs := EncodePairs(entries).value;
            forall i, j :: 0 <= i < |pairs| && 0 <= j < |pairs| && pairs[i].0 == pairs[j].0 ==> i == j
  {
    PairsOf(entries);
    var pairs := EncodePairs(entries).value;
    forall i, j | 0 <= i < |pairs| && 0 <= j < |pairs| && pairs[i].0 == pairs[j].0 ensures i == j {
      KeysInjective(entries[i].0, entries[j].0);
    }
  }

  /**
    The pairs written into a map: all of the encoded entries, in strictly ascending bytewise order of the
    encoded keys (section 4.2.1 of RFC 8949).
   */
  lemma KeysAscend(entries: seq<(Key, Bytes)>)
    requires EncodeMap(entries).Ok? && DistinctEntryKeys(entries)
    ensures var pairs := EncodePairs(entries).value;
            var sorted := Sort(PairLeq, pairs);
            && |entries| < 0x100
            && EncodeMap(entries).value == Header(5, |entries|) + JoinPairs(sorted)
            && multiset(sorted) == multiset(pairs)
            && forall i, j :: 0 <= i < j < |sorted| ==> LexLeq(sorted[i].0, sorted[j].0) && sorted[i].0 != sorted[j].0
  {
    hide EncodeKey, LexLeq, JoinPairs, Header, Sort;
    var pairs := EncodePairs(entries).value;
    var sorted := Sort(PairLeq, pairs);
    PairOrder();
    SortSorts(PairLeq, pairs);
    PairsSeparated(entries);
    forall i, j | 0 <= i < j < |sorted| ensures sorted[i].0 != sorted[j].0 {
      if sorted[i].0 == sorted[j].0 {
        SameElements(sorted, pairs);
        assert sorted[i] in pairs && sorted[j] in pairs;
        assert sorted[i] == sorted[j];
        TwiceIn(sorted, i, j);
        OnceIn(pairs, sorted[i]);
      }
    }
  }

  function PairOfEntry(entry: (Key, Bytes)): Pair {
    (match EncodeKey(entry.0) case Ok(b) => b case Err(_) => [], entry.1)
  }

  predicate KeyedLeq(a: (Key, Bytes), b: (Key, Bytes)) {
    PairLeq(PairOfEntry(a), PairOfEntry(b))
  }

  lemma KeyedOrder()
    ensures TotalPreorder(KeyedLeq)
  {
    hide PairOfEntry;
    PairOrder();
    forall a, b ensures KeyedLeq(a, b) || KeyedLeq(b, a) {
      assert PairLeq(PairOfEntry(a), PairOfEntry(b)) || PairLeq(PairOfEntry(b), PairOfEntry(a));
    }
    forall a, b, c | KeyedLeq(a, b) && KeyedLeq(b, c) ensures KeyedLeq(a, c) {
      assert PairLeq(PairOfEntry(a), PairOfEntry(b)) && PairLeq(PairOfEntry(b), PairOfEntry(c));
    }
  }

  lemma SortedByEntry(a: seq<(Key, Bytes)>)
    requires EncodePairs(a).Ok?
    ensures Sort(PairLeq, EncodePairs(a).value) == MapSeq(PairOfEntry, Sort(KeyedLeq, a))
  {
    PairsOf(a);
    assert EncodePairs(a).value == MapSeq(PairOfEntry, a);
    SortCommutesWithMap(KeyedLeq, PairLeq, PairOfEntry, a);
  }

  /** The order of entries with distinct keys does not show in the bytes of the map. */
  lemma MapBytesIgnoreOrder(a: seq<(Key, Bytes)>, b: seq<(Key, Bytes)>)
    requires multiset(a) == multiset(b) && DistinctEntryKeys(a)
    requires EncodePairs(a).Ok? && EncodePairs(b).Ok?
    ensures EncodeMap(a) == EncodeMap(b)
  {
    hide EncodeKey;
    SameElements(a, b);
    PairsOf(a);
    forall i, j | 0 <= i < |a| && 0 <= j < |a| && KeyedLeq(a[i], a[j]) && KeyedLeq(a[j], a[i]) ensures a[i] == a[j] {
      LexAntisymmetric(PairOfEntry(a[i]).0, PairOfEntry(a[j]).0);
      KeysInjective(a[i].0, a[j].0);
    }
    KeyedOrder();
    SortIgnoresOrder(KeyedLeq, a, b);
    SortedByEntry(a);
    SortedByEntry(b);
    PairOrder();
    SortSorts(PairLeq, EncodePairs(a).value);
  }

  // ----- Which keys the decoder takes

  /** A map of one entry decodes exactly when both items do and the key is neither a list nor a dict. */
  lemma OneEntryExactly(data: Bytes, offset: nat)
    requires offset < |data| && data[offset] == 0xA1
    ensures DecodeItem(data, offset) ==
            match DecodeItem(data, offset + 1)
            case None => None
            case Some((key, next)) =>
              match DecodeItem(data, next)
              case None => None
              case Some((value, end)) =>
                if key.ListItem? || key.DictItem? then None else Some((DictItem(map[key := value]), end))
  {
    MapHeader(data, offset);
    OneEntry(data, offset + 1);
  }

  lemma MapHeader(data: Bytes, offset: nat)
    requires offset < |data| && data[offset] == 0xA1
    ensures DecodeItem(data, offset) ==
            match DecodePairs(data, offset + 1, 1, map[])
            case None => None
            case Some((dict, end)) => Some((DictItem(dict), end))
  {
    hide DecodePairs;
    assert data[offset] / 32 == 5 && data[offset] % 32 == 1;
  }

  lemma OneEntry(data: Bytes, cursor: nat)
    ensures DecodePairs(data, cursor, 1, map[]) ==
            match DecodeItem(data, cursor)
            case None => None
            case Some((key, next)) =>
              match DecodeItem(data, next)
              case None => None
              case Some((value, end)) =>
                if key.ListItem? || key.DictItem? then None else Some((map[key := value], end))
  {
    hide DecodeItem;
    var key := DecodeItem(data, cursor);
    if key.Some? {
      var value := DecodeItem(data, key.value.1);
      if value.Some? {
        assert DecodePairs(data, value.value.1, 0, map[key.value.0 := value.value.0])
            == Some((map[key.value.0 := value.value.0], value.value.1));
        assert (map[])[key.value.0 := value.value.0] == map[key.value.0 := value.value.0];
      }
    }
  }
}
