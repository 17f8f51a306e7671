/**
  Encodings cut short: which proper prefixes of an encoding the decoder accepts. Only a string at the very end can be
  cut without notice, and the cursor then always passes the end of the data.
 */
module CborCut {
  import opened Basics
  import opened Ordering
  import opened Text
  import opened Cbor
  import opened CborRoundTrip

  /** The last entry written of a map that is not empty. */
  function LastEntry(entries: seq<(Key, Value)>): (e: (Key, Value))
    requires entries != []
    ensures e in entries
  {
    SortedEntries(entries);
    Sort(EntryLeq, entries)[|entries| - 1]
  }

  /** The leaf written last: a scalar, or an empty container. */
  function RightLeaf(v: Value): Value
    decreases v
  {
    match v
    case Array(items) => if items == [] then v else RightLeaf(items[|items| - 1])
    case Map(entries) =>
      if entries == [] then v
      else
        var e := LastEntry(entries);
        assert exists i | 0 <= i < |entries| :: entries[i] == e;
        RightLeaf(e.1)
    case Tag(_, item) => RightLeaf(item)
    case _ => v
  }

  /** The first j bytes of the text are those of its first characters. */
  predicate AtBoundary(s: string, j: nat) {
    exists m | 0 <= m <= |s| :: |Utf8(s[..m])| == j
  }

  /** Dropping this many bytes only cuts the string at the end, for text between two characters. */
  predicate CutDecodes(v: Value, missing: nat) {
    var leaf := RightLeaf(v);
    match leaf
    case Bstr(b) => missing <= |b|
    case Tstr(s) => missing <= |Utf8(s)| && AtBoundary(s, |Utf8(s)| - missing)
    case _ => false
  }

  /** The data end with the first m bytes of `part`, which stand at `offset`. */
  predicate Cut(data: Bytes, offset: nat, part: Bytes, m: nat) {
    m < |part| && offset + m == |data| && data[offset..] == part[..m]
  }

  lemma CutSplit(data: Bytes, offset: nat, a: Bytes, b: Bytes, m: nat)
    requires Cut(data, offset, a + b, m)
    ensures m < |a| ==> Cut(data, offset, a, m)
    ensures m >= |a| ==> At(data, offset, a) && Cut(data, offset + |a|, b, m - |a|)
  {
    if m < |a| {
      assert (a + b)[..m] == a[..m];
    } else {
      assert (a + b)[..m] == a + b[..m - |a|];
      assert data[offset..][..|a|] == data[offset..offset + |a|];
      assert data[offset..][|a|..] == data[offset + |a|..];
    }
  }

  // ----- Text

  lemma {:induction false} BoundaryDecodes(s: string, j: nat)
    requires j <= |Utf8(s)|
    ensures DecodeUtf8(Utf8(s)[..j]).Some? <==> AtBoundary(s, j)
  {
    if j == 0 {
      assert Utf8(s)[..0] == [] && s[..0] == [] && |Utf8([])| == 0;
      assert |Utf8(s[..0])| == 0;
    } else {
      var c, rest := EncodeChar(s[0]), Utf8(s[1..]);
      BoundaryCons(s, j);
      if j < |c| {
        assert (c + rest)[..j] == c[..j];
        CutCharRefused(s[0], j);
      } else {
        assert (c + rest)[..j] == c + rest[..j - |c|];
        DecodeEncodedChar(s[0], rest[..j - |c|]);
        assert (c + rest[..j - |c|])[|c|..] == rest[..j - |c|];
        hide DecodeChar, EncodeChar, AtBoundary;
        BoundaryDecodes(s[1..], j - |c|);
      }
    }
  }

  lemma CutCharRefused(c: char, j: nat)
    requires 0 < j < |EncodeChar(c)|
    ensures DecodeChar(EncodeChar(c)[..j]) == None && DecodeUtf8(EncodeChar(c)[..j]) == None
  {
    var v := c as int;
    assert EncodeChar(c)[..j][0] == EncodeChar(c)[0];
  }

  lemma Utf8Cons(c: char, s: string)
    ensures Utf8([c] + s) == EncodeChar(c) + Utf8(s)
  {
    ConsParts(c, s);
  }

  lemma TakeCons(s: string, m: nat)
    requires m < |s|
    ensures s[..m + 1] == [s[0]] + s[1..][..m]
  {
    assert s == [s[0]] + s[1..];
  }

  lemma BoundaryCons(s: string, j: nat)
    requires s != [] && j > 0
    ensures AtBoundary(s, j) <==> j >= |EncodeChar(s[0])| && AtBoundary(s[1..], j - |EncodeChar(s[0])|)
  {
    hide EncodeChar;
    var n := |EncodeChar(s[0])|;
    if AtBoundary(s, j) {
      var m :| 0 <= m <= |s| && |Utf8(s[..m])| == j;
      assert m > 0;
      TakeCons(s, m - 1);
      Utf8Cons(s[0], s[1..][..m - 1]);
      assert |Utf8(s[1..][..m - 1])| == j - n;
    }
    if j >= n && AtBoundary(s[1..], j - n) {
      var m :| 0 <= m <= |s[1..]| && |Utf8(s[1..][..m])| == j - n;
      TakeCons(s, m);
      Utf8Cons(s[0], s[1..][..m]);
      assert |Utf8(s[..m + 1])| == j;
    }
  }

  // ----- Scalars

  lemma HeaderCut(data: Bytes, offset: nat, major: int, n: nat, m: nat)
    requires 0 <= major < 8 && n < 0x10000 && Cut(data, offset, Header(major, n), m)
    ensures DecodeItem(data, offset) == None
  {
    if m > 0 {
      assert data[offset] == data[offset..][0] == Header(major, n)[0];
      hide DecodeString, DecodeItems, DecodePairs;
    }
  }

  lemma IntCut(data: Bytes, offset: nat, n: int, m: nat)
    requires EncodeInt(n).Ok? && Cut(data, offset, EncodeInt(n).value, m)
    ensures DecodeItem(data, offset) == None
  {
    hide DecodeItem;
    if SmallInt(n) {
      HeaderCut(data, offset, if n >= 0 then 0 else 1, if n >= 0 then n else -1 - n, m);
    } else {
      LargeCut(data, offset, n, m);
    }
  }

  lemma LargeCut(data: Bytes, offset: nat, n: int, m: nat)
    requires EncodeInt(n).Ok? && !SmallInt(n) && Cut(data, offset, EncodeInt(n).value, m)
    ensures DecodeItem(data, offset) == None
  {
    if m > 0 {
      assert data[offset] == data[offset..][0] == EncodeInt(n).value[0] == 26;
    }
  }

  /** A cut string is accepted exactly when the cut lies in its body, for text between two characters. */
  lemma BstrCut(data: Bytes, offset: nat, b: Bytes, m: nat)
    requires EncodeBstr(b).Ok? && Cut(data, offset, EncodeBstr(b).value, m)
    ensures var enc, r := EncodeBstr(b).value, DecodeItem(data, offset);
            && (r.Some? <==> |enc| - m <= |b|) && (r.Some? ==> r.value.1 == offset + |enc|)
  {
    hide ReadLength, Header, Cut;
    var h := Header(2, |b|);
    CutSplit(data, offset, h, b, m);
    if m < |h| {
      hide DecodeItem;
      HeaderCut(data, offset, 2, |b|, m);
    } else {
      HeaderReads(data, offset, 2, |b|);
    }
  }

  lemma TstrCut(data: Bytes, offset: nat, s: string, m: nat)
    requires EncodeTstr(s).Ok? && Cut(data, offset, EncodeTstr(s).value, m)
    ensures var enc, b, r := EncodeTstr(s).value, Utf8(s), DecodeItem(data, offset);
            && (r.Some? <==> |enc| - m <= |b| && AtBoundary(s, |b| - (|enc| - m)))
            && (r.Some? ==> r.value.1 == offset + |enc|)
  {
    hide ReadLength, Header, Utf8, AtBoundary, DecodeUtf8;
    var h, b := Header(3, |Utf8(s)|), Utf8(s);
    CutSplit(data, offset, h, b, m);
    if m < |h| {
      hide DecodeItem;
      HeaderCut(data, offset, 3, |b|, m);
    } else {
      HeaderReads(data, offset, 3, |b|);
      BoundaryDecodes(s, m - |h|);
    }
  }

  /** The string at the end is shorter than what is written. */
  lemma {:induction false} LeafInside(v: Value, missing: nat)
    requires Encode(v).Ok? && CutDecodes(v, missing)
    ensures missing < |Encode(v).value|
    decreases v
  {
    hide AtBoundary, Header, Utf8, Encode, EncodeAll, Join, LastEntry;
    match v
    case Array(items) =>
      ArrayUnfold(items);
      LastItem(items);
      LeafInside(items[|items| - 1], missing);
    case Map(entries) =>
      LastPair(entries);
      var i :| 0 <= i < |entries| && entries[i] == LastEntry(entries);
      LeafInside(entries[i].1, missing);
    case Tag(tag, item) =>
      TagUnfold(tag, item);
      LeafInside(item, missing);
    case _ =>
      StringInside(v);
  }

  lemma StringInside(v: Value)
    requires Encode(v).Ok?
    ensures v.Bstr? ==> |v.b| < |Encode(v).value|
    ensures v.Tstr? ==> |Utf8(v.s)| < |Encode(v).value|
  {
    hide Header, Utf8, EncodeAll, EncodeEntries, EncodeMap, EncodeArray;
  }

  lemma {:induction false} LastItem(items: seq<Value>)
    requires items != [] && EncodeAll(items).Ok?
    ensures Encode(items[|items| - 1]).Ok?
    ensures |Encode(items[|items| - 1]).value| <= |Join(EncodeAll(items).value)|
  {
    AllStep(items);
    hide Encode, EncodeAll, Join;
    if |items| > 1 {
      LastItem(items[1..]);
    }
  }

  lemma {:induction false} LastOfPairs(s: seq<(Key, Value)>)
    requires s != []
    ensures |EntryPair(s[|s| - 1]).1| <= |JoinPairs(MapSeq(EntryPair, s))|
  {
    hide EntryPair;
    JoinPairsStep(s);
    if |s| > 1 {
      LastOfPairs(s[1..]);
    }
  }

  lemma LastPair(entries: seq<(Key, Value)>)
    requires entries != [] && Encode(Map(entries)).Ok?
    ensures Encode(LastEntry(entries).1).Ok?
    ensures |Encode(LastEntry(entries).1).value| < |Encode(Map(entries)).value|
  {
    hide Encode, JoinPairs, MapSeq, EncodeKey, EntryPair, EntryLeq, Sort;
    MapBytes(entries);
    SortedEntries(entries);
    LastOfPairs(Sort(EntryLeq, entries));
    EntryWritten(LastEntry(entries));
  }

  lemma EntryWritten(e: (Key, Value))
    requires EntryEncodes(e)
    ensures Encode(e.1).Ok? && EncodeKey(e.0).Ok? && EntryPair(e) == (EncodeKey(e.0).value, Encode(e.1).value)
  {
    hide Encode, EncodeKey;
  }

  // ----- Containers

  /** How decoding data that end inside an encoding comes out: accepted or not, and then past the end. */
  predicate CutOutcome<T(==)>(r: Option<(T, nat)>, accepted: bool, end: nat) {
    (r.Some? <==> accepted) && (r.Some? ==> r.value.1 == end)
  }

  lemma PastEnd(data: Bytes, offset: nat)
    requires offset >= |data|
    ensures DecodeItem(data, offset) == None
  {
  }

  lemma {:induction false} CutEncoded(v: Value, data: Bytes, offset: nat, m: nat)
    requires Encode(v).Ok? && Cut(data, offset, Encode(v).value, m)
    ensures var enc := Encode(v).value;
            CutOutcome(DecodeItem(data, offset), Small(v) && CutDecodes(v, |enc| - m), offset + |enc|)
    decreases v, 2
  {
    hide DecodeItem, EncodeInt, EncodeBstr, EncodeTstr, Cut, AtBoundary, Utf8;
    match v
    case Int(n) => IntCut(data, offset, n, m);
    case Bstr(b) => BstrCut(data, offset, b, m);
    case Tstr(s) => TstrCut(data, offset, s, m);
    case Array(_) => ArrayCut(v, data, offset, m);
    case Map(_) => MapCut(v, data, offset, m);
    case Tag(_, _) => TagCut(v, data, offset, m);
  }

  lemma {:induction false} TagCut(v: Value, data: Bytes, offset: nat, m: nat)
    requires v.Tag? && Encode(v).Ok? && Cut(data, offset, Encode(v).value, m)
    ensures var enc := Encode(v).value;
            CutOutcome(DecodeItem(data, offset), Small(v) && CutDecodes(v, |enc| - m), offset + |enc|)
    decreases v, 1
  {
    hide Encode, DecodeItem, Cut, Header, AtBoundary;
    TagUnfold(v.tag, v.item);
    var h, part := Header(6, v.tag), Encode(v.item).value;
    CutSplit(data, offset, h, part, m);
    assert CutDecodes(v, |h| + |part| - m) <==> CutDecodes(v.item, |h| + |part| - m);
    if m < |h| {
      HeaderCut(data, offset, 6, v.tag, m);
      if CutDecodes(v.item, |h| + |part| - m) {
        LeafInside(v.item, |h| + |part| - m);
      }
    } else {
      CutEncoded(v.item, data, offset + |h|, m - |h|);
      TagFinish(data, offset, v.tag);
    }
  }

  lemma {:induction false} ArrayCut(v: Value, data: Bytes, offset: nat, m: nat)
    requires v.Array? && Encode(v).Ok? && Cut(data, offset, Encode(v).value, m)
    ensures var enc := Encode(v).value;
            CutOutcome(DecodeItem(data, offset), Small(v) && CutDecodes(v, |enc| - m), offset + |enc|)
    decreases v, 1
  {
    hide Encode, EncodeAll, Join, DecodeItem, DecodeItems, Cut, Header, AtBoundary;
    var items := v.items;
    ArrayUnfold(items);
    var h, body := Header(4, |items|), Join(EncodeAll(items).value);
    CutSplit(data, offset, h, body, m);
    if items == [] {
      NothingWritten();
      HeaderCut(data, offset, 4, 0, m);
    } else {
      var last := items[|items| - 1];
      LastItem(items);
      assert CutDecodes(v, |h| + |body| - m) <==> CutDecodes(last, |h| + |body| - m);
      assert Small(v) == AllSmall(items);
      if m < |h| {
        HeaderCut(data, offset, 4, |items|, m);
        if CutDecodes(last, |h| + |body| - m) {
          LeafInside(last, |h| + |body| - m);
        }
      } else {
        ListFinish(data, offset, |items|);
        ItemsCut(v, items, data, offset + |h|, m - |h|, []);
      }
    }
  }

  lemma NothingWritten()
    ensures Join(EncodeAll([]).value) == [] && JoinPairs(MapSeq(EntryPair, [])) == []
  {
  }

  lemma {:induction false} ItemsCut(v: Value, items: seq<Value>, data: Bytes, cursor: nat, m: nat, done: seq<Item>)
    requires items != [] && EncodeAll(items).Ok? && (forall i | 0 <= i < |items| :: items[i] < v)
    requires Cut(data, cursor, Join(EncodeAll(items).value), m)
    ensures var body := Join(EncodeAll(items).value);
            CutOutcome(DecodeItems(data, cursor, |items|, done),
                       AllSmall(items) && CutDecodes(items[|items| - 1], |body| - m), cursor + |body|)
    decreases v, 0, |items|
  {
    hide Encode, DecodeItem, CutDecodes, AllSmall;
    AllStep(items);
    AllSmallStep(items);
    var first, rest := Encode(items[0]).value, Join(EncodeAll(items[1..]).value);
    CutSplit(data, cursor, first, rest, m);
    hide EncodeAll, Join, Cut;
    if m < |first| {
      CutEncoded(items[0], data, cursor, m);
      if |items| == 1 {
        NothingWritten();
        LoneItem(items);
      } else {
        LastItem(items[1..]);
        if CutDecodes(items[|items| - 1], |first| + |rest| - m) {
          LeafInside(items[|items| - 1], |first| + |rest| - m);
        }
        if DecodeItem(data, cursor).Some? {
          CutAtEnd(data, cursor, first, m);
          PastEnd(data, DecodeItem(data, cursor).value.1);
        }
      }
    } else {
      DecodeEncoded(items[0], data, cursor);
      CutNonempty(data, cursor + |first|, rest, m - |first|);
      if |items| == 1 {
        NothingWritten();
      } else if Small(items[0]) {
        ItemsCut(v, items[1..], data, cursor + |first|, m - |first|, done + [ToItem(items[0])]);
      }
    }
  }

  lemma LoneItem(items: seq<Value>)
    requires |items| == 1
    ensures items[1..] == [] && AllSmall(items[1..])
  {
  }

  lemma CutAtEnd(data: Bytes, offset: nat, part: Bytes, m: nat)
    requires Cut(data, offset, part, m)
    ensures m < |part| && |data| < offset + |part|
  {
  }

  lemma CutNonempty(data: Bytes, offset: nat, part: Bytes, m: nat)
    requires Cut(data, offset, part, m)
    ensures part != []
  {
  }

  lemma {:induction false} MapCut(v: Value, data: Bytes, offset: nat, m: nat)
    requires v.Map? && Encode(v).Ok? && Cut(data, offset, Encode(v).value, m)
    ensures var enc := Encode(v).value;
            CutOutcome(DecodeItem(data, offset), Small(v) && CutDecodes(v, |enc| - m), offset + |enc|)
    decreases v, 1
  {
    hide Encode, DecodeItem, DecodePairs, Cut, Header, AtBoundary, JoinPairs, MapSeq, EntryPair, AllSmallEntries;
    hide EntryLeq, EntryEncodes, Sort, Small;
    var entries := v.entries;
    MapBytes(entries);
    SortedEntries(entries);
    var sorted := Sort(EntryLeq, entries);
    var h, body := Header(5, |entries|), JoinPairs(MapSeq(EntryPair, sorted));
    CutSplit(data, offset, h, body, m);
    SmallMap(entries, sorted);
    if entries == [] {
      NothingWritten();
      HeaderCut(data, offset, 5, 0, m);
    } else {
      var last := LastEntry(entries).1;
      EntryWritten(LastEntry(entries));
      LastOfPairs(sorted);
      assert CutDecodes(v, |h| + |body| - m) <==> CutDecodes(last, |h| + |body| - m);
      if m < |h| {
        HeaderCut(data, offset, 5, |entries|, m);
        if CutDecodes(last, |h| + |body| - m) {
          LeafInside(last, |h| + |body| - m);
        }
      } else {
        DictFinish(data, offset, |entries|);
        PairsCut(v, sorted, data, offset + |h|, m - |h|, map[]);
      }
    }
  }

  lemma {:induction false} PairsCut(v: Value, s: seq<(Key, Value)>, data: Bytes, cursor: nat, m: nat, dict: map<Item,
                                    Item>)
    requires v.Map? && s != [] && forall i | 0 <= i < |s| :: s[i] in v.entries && EntryEncodes(s[i])
    requires Cut(data, cursor, JoinPairs(MapSeq(EntryPair, s)), m)
    ensures var body := JoinPairs(MapSeq(EntryPair, s));
            CutOutcome(DecodePairs(data, cursor, |s|, dict),
                       AllSmallEntries(s) && CutDecodes(s[|s| - 1].1, |body| - m), cursor + |body|)
    decreases v, 0, |s|
  {
    hide Encode, DecodeItem, CutDecodes, AllSmallEntries, EntryPair, EntryEncodes, EntryReads, Cut, JoinPairs,
      MapSeq, EncodeKey;
    hide SmallEntry, DecodePairs;
    JoinPairsStep(s);
    AllSmallEntriesStep(s);
    EntryWritten(s[0]);
    var key, value := EntryPair(s[0]).0, EntryPair(s[0]).1;
    var rest := JoinPairs(MapSeq(EntryPair, s[1..]));
    CutSplit(data, cursor, key, value + rest, m);
    if m < |key| {
      KeyCutRefused(data, cursor, s[0].0, m, |s|, dict);
      if |s| > 1 {
        LastOfPairs(s[1..]);
      }
      NotCutEarly(s, m, |key|);
    } else {
      EntryReadsBack(v, s[0], data);
      CutSplit(data, cursor + |key|, value, rest, m - |key|);
      if m - |key| < |value| {
        ValueCut(v, s, data, cursor, m, dict);
      } else {
        CutNonempty(data, cursor + |key| + |value|, rest, m - |key| - |value|);
        PairReads(s[0], data, cursor, |s|, dict);
        if |s| == 1 {
          NothingWritten();
        } else if SmallEntry(s[0]) {
          PairsCut(v, s[1..], data, cursor + |key| + |value|, m - |key| - |value|,
                   dict[KeyItem(s[0].0) := ToItem(s[0].1)]);
        }
      }
    }
  }

  /** A cut before the value of the last entry leaves too little for its string. */
  lemma NotCutEarly(s: seq<(Key, Value)>, m: nat, before: nat)
    requires s != [] && EntryEncodes(s[|s| - 1]) && m <= before
    requires var body := JoinPairs(MapSeq(EntryPair, s));
             m <= |body| && |body| - before >= |EntryPair(s[|s| - 1]).1|
    ensures !CutDecodes(s[|s| - 1].1, |JoinPairs(MapSeq(EntryPair, s))| - m)
  {
    hide CutDecodes, JoinPairs, MapSeq, EntryPair, EntryEncodes;
    EntryWritten(s[|s| - 1]);
    if CutDecodes(s[|s| - 1].1, |JoinPairs(MapSeq(EntryPair, s))| - m) {
      LeafInside(s[|s| - 1].1, |JoinPairs(MapSeq(EntryPair, s))| - m);
    }
  }

  /** A cut inside a key leaves no value to read. */
  lemma KeyCutRefused(data: Bytes, cursor: nat, key: Key, m: nat, count: nat, dict: map<Item, Item>)
    requires EncodeKey(key).Ok? && Cut(data, cursor, EncodeKey(key).value, m) && count > 0
    ensures DecodePairs(data, cursor, count, dict) == None
  {
    hide DecodeItem, Cut, EncodeInt, EncodeTstr, AtBoundary, Utf8;
    CutAtEnd(data, cursor, EncodeKey(key).value, m);
    match key
    case IntKey(n) => IntCut(data, cursor, n, m);
    case TextKey(s) =>
      TstrCut(data, cursor, s, m);
      PastEnd(data, cursor + |EncodeTstr(s).value|);
  }

  lemma {:induction false} ValueCut(v: Value, s: seq<(Key, Value)>, data: Bytes, cursor: nat, m: nat, dict: map<Item,
                                    Item>)
    requires v.Map? && s != [] && s[0] in v.entries && EntryEncodes(s[0]) && EntryEncodes(s[|s| - 1])
    requires EntryReads(s[0], data) && At(data, cursor, EntryPair(s[0]).0)
    requires m >= |EntryPair(s[0]).0| && Cut(data, cursor + |EntryPair(s[0]).0|, EntryPair(s[0]).1,
             m - |EntryPair(s[0]).0|)
    ensures var body := JoinPairs(MapSeq(EntryPair, s));
            CutOutcome(DecodePairs(data, cursor, |s|, dict),
                       AllSmallEntries(s) && CutDecodes(s[|s| - 1].1, |body| - m), cursor + |body|)
    decreases v, 0, 0
  {
    hide Encode, DecodeItem, CutDecodes, AllSmallEntries, EntryPair, EntryEncodes, Cut, JoinPairs, MapSeq, EncodeKey,
      At;
    JoinPairsStep(s);
    AllSmallEntriesStep(s);
    EntryWritten(s[0]);
    var key, value := EntryPair(s[0]).0, EntryPair(s[0]).1;
    var i :| 0 <= i < |v.entries| && v.entries[i] == s[0];
    CutEncoded(v.entries[i].1, data, cursor + |key|, m - |key|);
    CutAtEnd(data, cursor + |key|, value, m - |key|);
    if |s| == 1 {
      NothingWritten();
      NothingLarge();
    } else {
      LastOfPairs(s[1..]);
      NotCutEarly(s, m, |key| + |value|);
      PastEnd(data, cursor + |key| + |value|);
    }
  }

  // ----- Main result

  /**
    The first n bytes of an encoding are accepted if and only if every integer inside is small and the cut lies in the
    body of a string written last, for text between two characters. The cursor then passes the end of the data.
   */
  lemma PrefixDecodesExactly(v: Value, n: nat)
    requires Encode(v).Ok? && n < |Encode(v).value|
    ensures var enc := Encode(v).value;
            var r := DecodeItem(enc[..n], 0);
            && (r.Some? <==> Small(v) && CutDecodes(v, |enc| - n))
            && (r.Some? ==> r.value.1 == |enc| > |enc[..n]|)
  {
    hide DecodeItem, Encode, CutDecodes, Small;
    var enc := Encode(v).value;
    assert enc[..n][0..] == enc[..n];
    CutEncoded(v, enc[..n], 0, n);
  }
}
