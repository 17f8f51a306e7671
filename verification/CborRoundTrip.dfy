/**
  Decoding undoes encoding: nested CBOR values, the encoder composed over them, and the proof that wherever an
  encoding stands in the data, the decoder reads back what was written or, if an integer inside is large, refuses.
 */
module CborRoundTrip {
  import opened Basics
  import opened Ordering
  import opened Text
  import opened Cbor

  datatype Value =
    | Int(n: int)
    | Bstr(b: Bytes)
    | Tstr(s: string)
    | Array(items: seq<Value>)
    | Map(entries: seq<(Key, Value)>)
    | Tag(tag: nat, item: Value)

  /** A nested value written with the encoders, innermost first. */
  function Encode(v: Value): Result<Bytes>
    decreases v
  {
    match v
    case Int(n) => EncodeInt(n)
    case Bstr(b) => EncodeBstr(b)
    case Tstr(s) => EncodeTstr(s)
    case Array(items) =>
      var parts :- EncodeAll(items);
      EncodeArray(parts)
    case Map(entries) =>
      var parts :- EncodeEntries(entries);
      EncodeMap(parts)
    case Tag(tag, item) =>
      var part :- Encode(item);
      EncodeTag(tag, part)
  }

  function EncodeAll(items: seq<Value>): (r: Result<seq<Bytes>>)
    ensures r.Ok? ==> |r.value| == |items|
    decreases items
  {
    if items == [] then Ok([])
    else
      var first :- Encode(items[0]);
      var rest :- EncodeAll(items[1..]);
      Ok([first] + rest)
  }

  function EncodeEntries(entries: seq<(Key, Value)>): (r: Result<seq<(Key, Bytes)>>)
    ensures r.Ok? ==> |r.value| == |entries|
    decreases entries
  {
    if entries == [] then Ok([])
    else
      var first :- EncodeEntry(entries[0]);
      var rest :- EncodeEntries(entries[1..]);
      Ok([(entries[0].0, first)] + rest)
  }

  function EncodeEntry(entry: (Key, Value)): Result<Bytes>
    decreases entry
  {
    Encode(entry.1)
  }

  // ----- What the decoder should return

  function KeyItem(key: Key): Item {
    match key
    case IntKey(n) => IntItem(n)
    case TextKey(s) => TextItem(s)
  }

  function ToItem(v: Value): Item
    decreases v
  {
    match v
    case Int(n) => IntItem(n)
    case Bstr(b) => BytesItem(b)
    case Tstr(s) => TextItem(s)
    case Array(items) => ListItem(ToItems(items))
    case Map(entries) => DictItem(ToDict(entries))
    case Tag(tag, item) => TagDict(tag, ToItem(item))
  }

  function ToItems(items: seq<Value>): (r: seq<Item>)
    ensures |r| == |items|
    decreases items
  {
    if items == [] then [] else [ToItem(items[0])] + ToItems(items[1..])
  }

  /** The dict holding every entry; a later entry wins over an earlier one with the same key. */
  function ToDict(entries: seq<(Key, Value)>): map<Item, Item>
    decreases entries
  {
    if entries == [] then map[]
    else map[KeyItem(entries[0].0) := EntryItem(entries[0])] + ToDict(entries[1..])
  }

  function EntryItem(entry: (Key, Value)): Item
    decreases entry
  {
    ToItem(entry.1)
  }

  predicate SmallInt(n: int) {
    -0x10000 <= n < 0x10000
  }

  predicate SmallKey(key: Key) {
    key.IntKey? ==> SmallInt(key.n)
  }

  /** Every integer and integer key lies within two bytes, all the way down. */
  predicate Small(v: Value)
    decreases v
  {
    match v
    case Int(n) => SmallInt(n)
    case Array(items) => forall i | 0 <= i < |items| :: Small(items[i])
    case Map(entries) => forall i | 0 <= i < |entries| :: SmallKey(entries[i].0) && Small(entries[i].1)
    case Tag(_, item) => Small(item)
    case _ => true
  }

  predicate SmallEntry(entry: (Key, Value)) {
    SmallKey(entry.0) && Small(entry.1)
  }

  /** What decoding an encoded value gives: the value and the offset after it, or nothing if an integer is large. */
  function Outcome(v: Value, end: nat): Option<(Item, nat)> {
    if Small(v) then Some((ToItem(v), end)) else None
  }

  function KeyOutcome(key: Key, end: nat): Option<(Item, nat)> {
    if SmallKey(key) then Some((KeyItem(key), end)) else None
  }

  // ----- Headers and scalars

  /** `part` stands at `offset`. */
  predicate At(data: Bytes, offset: nat, part: Bytes) {
    offset + |part| <= |data| && data[offset..offset + |part|] == part
  }

  lemma AtSplit(data: Bytes, offset: nat, a: Bytes, b: Bytes)
    ensures At(data, offset, a + b) <==> At(data, offset, a) && At(data, offset + |a|, b)
  {
    if offset + |a| + |b| <= |data| {
      var n := offset + |a| + |b|;
      assert data[offset..n] == data[offset..offset + |a|] + data[offset + |a|..n];
      assert (a + b)[..|a|] == a && (a + b)[|a|..] == b;
      assert data[offset..n][..|a|] == data[offset..offset + |a|];
      assert data[offset..n][|a|..] == data[offset + |a|..n];
    }
  }

  lemma AtIndex(data: Bytes, offset: nat, part: Bytes, i: nat)
    requires At(data, offset, part) && i < |part|
    ensures data[offset + i] == part[i]
  {
    assert data[offset..offset + |part|][i] == data[offset + i];
  }

  /** A header reads back as its major type and number. */
  lemma HeaderReads(data: Bytes, offset: nat, major: int, n: nat)
    requires 0 <= major < 8 && n < 0x10000
    requires At(data, offset, Header(major, n))
    ensures offset < |data| && data[offset] / 32 == major
    ensures ReadLength(data, offset + 1, data[offset] % 32) == Some((n, offset + |Header(major, n)|))
  {
    var h := Header(major, n);
    AtIndex(data, offset, h, 0);
    if n >= 24 {
      AtIndex(data, offset, h, 1);
    }
    if n >= 0x100 {
      AtIndex(data, offset, h, 2);
    }
  }

  lemma IntReads(data: Bytes, offset: nat, n: int)
    requires SmallInt(n)
    requires At(data, offset, EncodeInt(n).value)
    ensures DecodeItem(data, offset) == Some((IntItem(n), offset + |EncodeInt(n).value|))
  {
    hide ReadLength, Header, At;
    if n >= 0 {
      HeaderReads(data, offset, 0, n);
    } else {
      HeaderReads(data, offset, 1, -1 - n);
    }
  }

  /** A four-byte integer encodes, and the decoder refuses it wherever it stands. */
  lemma LargeUintRefused(data: Bytes, offset: nat, n: int)
    requires 0x10000 <= n < 0x100000000
    ensures EncodeInt(n).Ok?
    ensures At(data, offset, EncodeInt(n).value) ==> DecodeItem(data, offset) == None
  {
    if At(data, offset, EncodeInt(n).value) {
      AtIndex(data, offset, EncodeInt(n).value, 0);
    }
  }

  lemma IntOutcome(data: Bytes, offset: nat, n: int)
    requires EncodeInt(n).Ok? && At(data, offset, EncodeInt(n).value)
    ensures DecodeItem(data, offset) == Outcome(Int(n), offset + |EncodeInt(n).value|)
  {
    hide DecodeItem, At;
    if SmallInt(n) {
      IntReads(data, offset, n);
    } else {
      LargeUintRefused(data, offset, n);
    }
  }

  lemma BstrReads(data: Bytes, offset: nat, b: Bytes)
    requires EncodeBstr(b).Ok?
    requires At(data, offset, EncodeBstr(b).value)
    ensures DecodeItem(data, offset) == Some((BytesItem(b), offset + |EncodeBstr(b).value|))
  {
    hide ReadLength, Header;
    AtSplit(data, offset, Header(2, |b|), b);
    HeaderReads(data, offset, 2, |b|);
  }

  lemma TstrReads(data: Bytes, offset: nat, s: string)
    requires EncodeTstr(s).Ok?
    requires At(data, offset, EncodeTstr(s).value)
    ensures DecodeItem(data, offset) == Some((TextItem(s), offset + |EncodeTstr(s).value|))
  {
    hide ReadLength, Header, DecodeUtf8, Utf8;
    var b := Utf8(s);
    AtSplit(data, offset, Header(3, |b|), b);
    HeaderReads(data, offset, 3, |b|);
    Utf8RoundTrip(s);
  }

  lemma KeyReads(data: Bytes, offset: nat, key: Key)
    requires EncodeKey(key).Ok? && At(data, offset, EncodeKey(key).value)
    ensures DecodeItem(data, offset) == KeyOutcome(key, offset + |EncodeKey(key).value|)
  {
    hide DecodeItem, EncodeInt, EncodeTstr, At;
    match key
    case IntKey(n) => IntOutcome(data, offset, n);
    case TextKey(s) => TstrReads(data, offset, s);
  }

  // ----- Containers

  /** The encoded entry, total so that it can be mapped over a sequence. */
  function EntryPair(entry: (Key, Value)): Pair {
    (match EncodeKey(entry.0) case Ok(b) => b case Err(_) => [],
     match Encode(entry.1) case Ok(b) => b case Err(_) => [])
  }

  predicate EntryLeq(a: (Key, Value), b: (Key, Value)) {
    PairLeq(EntryPair(a), EntryPair(b))
  }

  predicate EntryEncodes(entry: (Key, Value)) {
    EncodeKey(entry.0).Ok? && Encode(entry.1).Ok?
  }

  lemma MapSeqStep<A, B>(f: A -> B, s: seq<A>)
    requires s != []
    ensures MapSeq(f, s) == [f(s[0])] + MapSeq(f, s[1..])
  {
  }

  lemma {:induction false} EntriesEncode(entries: seq<(Key, Value)>)
    requires EncodeEntries(entries).Ok? && EncodePairs(EncodeEntries(entries).value).Ok?
    ensures EncodePairs(EncodeEntries(entries).value).value == MapSeq(EntryPair, entries)
    ensures forall e :: e in entries ==> EntryEncodes(e)
  {
    if entries != [] {
      var first, rest := Encode(entries[0].1).value, EncodeEntries(entries[1..]).value;
      ConsParts((entries[0].0, first), rest);
      EntriesEncode(entries[1..]);
      MapSeqStep(EntryPair, entries);
      assert forall e :: e in entries ==> e == entries[0] || e in entries[1..];
    }
  }

  /** The bytes of a map: its header and the entries in ascending order of their encoded keys. */
  lemma MapBytes(entries: seq<(Key, Value)>)
    requires Encode(Map(entries)).Ok?
    ensures |entries| < 0x100
    ensures Encode(Map(entries)).value == Header(5, |entries|) + JoinPairs(MapSeq(EntryPair, Sort(EntryLeq, entries)))
    ensures forall e :: e in entries ==> EntryEncodes(e)
  {
    hide Encode, EncodeKey, Header;
    MapUnfold(entries);
    EntriesEncode(entries);
    SortCommutesWithMap(EntryLeq, PairLeq, EntryPair, entries);
  }

  lemma MapUnfold(entries: seq<(Key, Value)>)
    requires Encode(Map(entries)).Ok?
    ensures EncodeEntries(entries).Ok? && EncodeMap(EncodeEntries(entries).value) == Encode(Map(entries))
  {
  }

  lemma SortedEntries(entries: seq<(Key, Value)>)
    ensures Sorted(EntryLeq, Sort(EntryLeq, entries))
    ensures multiset(Sort(EntryLeq, entries)) == multiset(entries)
    ensures |Sort(EntryLeq, entries)| == |entries|
    ensures forall e :: e in Sort(EntryLeq, entries) <==> e in entries
  {
    PairOrder();
    forall a, b ensures EntryLeq(a, b) || EntryLeq(b, a) {
      assert PairLeq(EntryPair(a), EntryPair(b)) || PairLeq(EntryPair(b), EntryPair(a));
    }
    forall a, b, c | EntryLeq(a, b) && EntryLeq(b, c) ensures EntryLeq(a, c) {
      assert PairLeq(EntryPair(a), EntryPair(b)) && PairLeq(EntryPair(b), EntryPair(c));
    }
    SortSorts(EntryLeq, entries);
    var sorted := Sort(EntryLeq, entries);
    forall e: (Key, Value) ensures e in sorted <==> e in entries {
      assert e in sorted <==> e in multiset(sorted);
      assert e in entries <==> e in multiset(entries);
    }
  }

  // ----- The dict does not change when the entries are sorted, as the sort is stable

  lemma KeyItemInjective(a: Key, b: Key)
    requires KeyItem(a) == KeyItem(b)
    ensures a == b
  {
  }

  lemma EntryLeqSameKey(a: (Key, Value), b: (Key, Value))
    requires a.0 == b.0
    ensures EntryLeq(a, b)
  {
    LexTotal(EntryPair(a).0, EntryPair(b).0);
  }

  lemma DictCons(entry: (Key, Value), rest: seq<(Key, Value)>)
    ensures ToDict([entry] + rest) == map[KeyItem(entry.0) := ToItem(entry.1)] + ToDict(rest)
  {
    ConsParts(entry, rest);
  }

  lemma DictSwap(j: Item, x: Item, k: Item, y: Item, rest: map<Item, Item>)
    requires j != k
    ensures map[j := x] + (map[k := y] + rest) == map[k := y] + (map[j := x] + rest)
  {
  }

  lemma {:induction false} InsertDict(x: (Key, Value), s: seq<(Key, Value)>)
    ensures ToDict(Insert(EntryLeq, x, s)) == map[KeyItem(x.0) := ToItem(x.1)] + ToDict(s)
  {
    hide EntryLeq, ToItem, KeyItem;
    if s == [] || EntryLeq(x, s[0]) {
      DictCons(x, s);
      assert s == [] ==> [x] + s == [x];
    } else {
      InsertDict(x, s[1..]);
      DictCons(s[0], Insert(EntryLeq, x, s[1..]));
      if KeyItem(x.0) == KeyItem(s[0].0) {
        KeyItemInjective(x.0, s[0].0);
        EntryLeqSameKey(x, s[0]);
      }
      hide ToDict;
      HeadTail(s);
      DictCons(s[0], s[1..]);
      DictSwap(KeyItem(s[0].0), ToItem(s[0].1), KeyItem(x.0), ToItem(x.1), ToDict(s[1..]));
    }
  }

  /** Sorting entries by their encoded keys leaves the dict as it is, repeated keys included. */
  lemma {:induction false} SortDict(s: seq<(Key, Value)>)
    ensures ToDict(Sort(EntryLeq, s)) == ToDict(s)
  {
    hide EntryLeq, ToItem, KeyItem, Insert;
    if s != [] {
      SortDict(s[1..]);
      InsertDict(s[0], Sort(EntryLeq, s[1..]));
      HeadTail(s);
      DictCons(s[0], s[1..]);
    }
  }

  // ----- The round trip

  /**
    Wherever the encoding of a value stands, the decoder returns the value and stops right after it if every
    integer inside is small, and refuses otherwise.
   */
  lemma {:induction false} DecodeEncoded(v: Value, data: Bytes, offset: nat)
    requires Encode(v).Ok? && At(data, offset, Encode(v).value)
    ensures DecodeItem(data, offset) == Outcome(v, offset + |Encode(v).value|)
    decreases v, 1
  {
    hide DecodeItem, At, EncodeInt, EncodeBstr, EncodeTstr;
    match v
    case Int(n) => IntOutcome(data, offset, n);
    case Bstr(b) => BstrReads(data, offset, b);
    case Tstr(s) => TstrReads(data, offset, s);
    case Array(_) => ArrayReads(v, data, offset);
    case Map(_) => MapReads(v, data, offset);
    case Tag(_, _) => TagReads(v, data, offset);
  }

  lemma {:induction false} TagReads(v: Value, data: Bytes, offset: nat)
    requires v.Tag? && Encode(v).Ok? && At(data, offset, Encode(v).value)
    ensures DecodeItem(data, offset) == Outcome(v, offset + |Encode(v).value|)
    decreases v, 0
  {
    hide Encode, DecodeItem, At, Header;
    TagUnfold(v.tag, v.item);
    var h, part := Header(6, v.tag), Encode(v.item).value;
    AtSplit(data, offset, h, part);
    DecodeEncoded(v.item, data, offset + |h|);
    TagFinish(data, offset, v.tag);
  }

  lemma TagUnfold(tag: nat, v: Value)
    requires Encode(Tag(tag, v)).Ok?
    ensures tag < 0x100 && Encode(v).Ok? && Encode(Tag(tag, v)).value == Header(6, tag) + Encode(v).value
  {
  }

  lemma TagFinish(data: Bytes, offset: nat, tag: nat)
    requires tag < 0x10000 && At(data, offset, Header(6, tag))
    ensures DecodeItem(data, offset) ==
            var value := DecodeItem(data, offset + |Header(6, tag)|);
            if value.None? then None else Some((TagDict(tag, value.value.0), value.value.1))
  {
    hide ReadLength, Header, At, TagDict;
    HeaderReads(data, offset, 6, tag);
  }

  lemma ListFinish(data: Bytes, offset: nat, n: nat)
    requires n < 0x10000 && At(data, offset, Header(4, n))
    ensures DecodeItem(data, offset) ==
            var items := DecodeItems(data, offset + |Header(4, n)|, n, []);
            if items.None? then None else Some((ListItem(items.value.0), items.value.1))
  {
    hide ReadLength, Header, At, DecodeItems;
    HeaderReads(data, offset, 4, n);
  }

  lemma DictFinish(data: Bytes, offset: nat, n: nat)
    requires n < 0x10000 && At(data, offset, Header(5, n))
    ensures DecodeItem(data, offset) ==
            var dict := DecodePairs(data, offset + |Header(5, n)|, n, map[]);
            if dict.None? then None else Some((DictItem(dict.value.0), dict.value.1))
  {
    hide ReadLength, Header, At, DecodePairs;
    HeaderReads(data, offset, 5, n);
  }

  lemma ArrayUnfold(items: seq<Value>)
    requires Encode(Array(items)).Ok?
    ensures EncodeAll(items).Ok? && |items| < 0x100
    ensures Encode(Array(items)).value == Header(4, |items|) + Join(EncodeAll(items).value)
  {
  }

  predicate AllSmall(items: seq<Value>) {
    forall i | 0 <= i < |items| :: Small(items[i])
  }

  predicate AllSmallEntries(entries: seq<(Key, Value)>) {
    forall i | 0 <= i < |entries| :: SmallEntry(entries[i])
  }

  lemma {:induction false} ArrayReads(v: Value, data: Bytes, offset: nat)
    requires v.Array? && Encode(v).Ok? && At(data, offset, Encode(v).value)
    ensures DecodeItem(data, offset) == Outcome(v, offset + |Encode(v).value|)
    decreases v, 0
  {
    hide Encode, DecodeItem, DecodeItems, At, Header;
    ArrayUnfold(v.items);
    var h, body := Header(4, |v.items|), Join(EncodeAll(v.items).value);
    AtSplit(data, offset, h, body);
    ItemsRead(v.items, data, offset + |h|, []);
    assert [] + ToItems(v.items) == ToItems(v.items);
    assert Small(v) == AllSmall(v.items);
    ListFinish(data, offset, |v.items|);
  }

  lemma AllStep(items: seq<Value>)
    requires items != [] && EncodeAll(items).Ok?
    ensures Encode(items[0]).Ok? && EncodeAll(items[1..]).Ok?
    ensures Join(EncodeAll(items).value) == Encode(items[0]).value + Join(EncodeAll(items[1..]).value)
  {
    ConsParts(Encode(items[0]).value, EncodeAll(items[1..]).value);
  }

  lemma AllSmallStep(items: seq<Value>)
    requires items != []
    ensures AllSmall(items) <==> Small(items[0]) && AllSmall(items[1..])
  {
    hide Small;
    HeadTail(items);
  }

  lemma {:induction false} ItemsRead(items: seq<Value>, data: Bytes, cursor: nat, done: seq<Item>)
    requires EncodeAll(items).Ok? && At(data, cursor, Join(EncodeAll(items).value))
    ensures DecodeItems(data, cursor, |items|, done)
            == if AllSmall(items) then Some((done + ToItems(items), cursor + |Join(EncodeAll(items).value)|)) else None
    decreases items, 0
  {
    hide Encode, DecodeItem, At, AllSmall;
    if items == [] {
      assert done + [] == done;
      NothingLarge();
    } else {
      AllStep(items);
      AllSmallStep(items);
      var first, rest := Encode(items[0]).value, Join(EncodeAll(items[1..]).value);
      AtSplit(data, cursor, first, rest);
      DecodeEncoded(items[0], data, cursor);
      ItemsRead(items[1..], data, cursor + |first|, done + [ToItem(items[0])]);
      Assoc(done, [ToItem(items[0])], ToItems(items[1..]));
    }
  }

  lemma NothingLarge()
    ensures AllSmall([]) && AllSmallEntries([])
  {
  }

  lemma {:induction false} MapReads(v: Value, data: Bytes, offset: nat)
    requires v.Map? && Encode(v).Ok? && At(data, offset, Encode(v).value)
    ensures DecodeItem(data, offset) == Outcome(v, offset + |Encode(v).value|)
    decreases v, 0
  {
    hide Encode, DecodeItem, DecodePairs, At, Header, JoinPairs, EntryPair, ToDict, AllSmallEntries, EntryReads, Small;
    var sorted := Sort(EntryLeq, v.entries);
    MapBytes(v.entries);
    SortedEntries(v.entries);
    var h, body := Header(5, |v.entries|), JoinPairs(MapSeq(EntryPair, sorted));
    AtSplit(data, offset, h, body);
    forall i | 0 <= i < |sorted|
      ensures EntryReads(sorted[i], data)
    {
      assert sorted[i] in v.entries;
      EntryReadsBack(v, sorted[i], data);
    }
    PairsRead(sorted, data, offset + |h|, map[]);
    SortDict(v.entries);
    SmallMap(v.entries, sorted);
    assert map[] + ToDict(sorted) == ToDict(sorted);
    DictFinish(data, offset, |v.entries|);
  }

  lemma SmallMap(entries: seq<(Key, Value)>, sorted: seq<(Key, Value)>)
    requires forall e :: e in sorted <==> e in entries
    ensures Small(Map(entries)) <==> AllSmallEntries(sorted)
  {
    assert Small(Map(entries)) <==> AllSmallEntries(entries);
    hide Small, SmallKey, SmallEntry;
    assert AllSmallEntries(entries) <==> forall e | e in entries :: SmallEntry(e);
    assert AllSmallEntries(sorted) <==> forall e | e in sorted :: SmallEntry(e);
  }

  /** Key and value of an entry give their outcomes at every place they stand. */
  ghost predicate EntryReads(e: (Key, Value), data: Bytes) {
    && EntryEncodes(e)
    && (forall o: nat :: At(data, o, EntryPair(e).0) ==> DecodeItem(data, o) == KeyOutcome(e.0, o + |EntryPair(e).0|))
    && (forall o: nat :: At(data, o, EntryPair(e).1) ==> DecodeItem(data, o) == Outcome(e.1, o + |EntryPair(e).1|))
  }

  lemma {:induction false} EntryReadsBack(v: Value, e: (Key, Value), data: Bytes)
    requires v.Map? && e in v.entries && EntryEncodes(e)
    ensures EntryReads(e, data)
    decreases v, 0, 0
  {
    hide Encode, DecodeItem, At, EncodeKey, Outcome, KeyOutcome;
    var i :| 0 <= i < |v.entries| && v.entries[i] == e;
    forall o: nat | At(data, o, EntryPair(e).0)
      ensures DecodeItem(data, o) == KeyOutcome(e.0, o + |EntryPair(e).0|)
    {
      KeyReads(data, o, e.0);
    }
    forall o: nat | At(data, o, EntryPair(e).1)
      ensures DecodeItem(data, o) == Outcome(e.1, o + |EntryPair(e).1|)
    {
      DecodeEncoded(v.entries[i].1, data, o);
    }
  }

  lemma JoinPairsStep(entries: seq<(Key, Value)>)
    requires entries != []
    ensures JoinPairs(MapSeq(EntryPair, entries))
            == EntryPair(entries[0]).0 + (EntryPair(entries[0]).1 + JoinPairs(MapSeq(EntryPair, entries[1..])))
  {
    hide EntryPair;
    assert MapSeq(EntryPair, entries)[1..] == MapSeq(EntryPair, entries[1..]);
  }

  lemma DictStep(dict: map<Item, Item>, k: Item, x: Item, rest: map<Item, Item>)
    ensures dict[k := x] + rest == dict + (map[k := x] + rest)
  {
  }

  lemma AllSmallEntriesStep(entries: seq<(Key, Value)>)
    requires entries != []
    ensures AllSmallEntries(entries) <==> SmallEntry(entries[0]) && AllSmallEntries(entries[1..])
  {
    hide SmallEntry;
    HeadTail(entries);
  }

  /** One turn of the loop over pairs. */
  lemma PairReads(e: (Key, Value), data: Bytes, cursor: nat, count: nat, dict: map<Item, Item>)
    requires EntryReads(e, data) && count > 0
    requires At(data, cursor, EntryPair(e).0) && At(data, cursor + |EntryPair(e).0|, EntryPair(e).1)
    ensures DecodePairs(data, cursor, count, dict)
            == if SmallEntry(e)
               then DecodePairs(data, cursor + |EntryPair(e).0| + |EntryPair(e).1|, count - 1,
                                dict[KeyItem(e.0) := ToItem(e.1)])
               else None
  {
    hide DecodeItem, EntryPair, At, ToItem, Small, SmallKey;
  }

  /** What the loop over pairs gives: all entries added to the dict, or nothing if an integer is large. */
  function PairsOutcome(entries: seq<(Key, Value)>, dict: map<Item, Item>, end: nat): Option<(map<Item, Item>, nat)> {
    if AllSmallEntries(entries) then Some((dict + ToDict(entries), end)) else None
  }

  lemma PairsOutcomeStep(entries: seq<(Key, Value)>, dict: map<Item, Item>, end: nat)
    requires entries != []
    ensures var e := entries[0];
            PairsOutcome(entries, dict, end)
            == if SmallEntry(e) then PairsOutcome(entries[1..], dict[KeyItem(e.0) := ToItem(e.1)], end) else None
  {
    AllSmallEntriesStep(entries);
    hide AllSmallEntries, SmallEntry, ToItem, KeyItem;
    HeadTail(entries);
    DictCons(entries[0], entries[1..]);
    DictStep(dict, KeyItem(entries[0].0), ToItem(entries[0].1), ToDict(entries[1..]));
  }

  lemma NoPairs(data: Bytes, cursor: nat, dict: map<Item, Item>)
    ensures JoinPairs(MapSeq(EntryPair, [])) == []
    ensures DecodePairs(data, cursor, 0, dict) == PairsOutcome([], dict, cursor)
  {
    NothingLarge();
    assert dict + map[] == dict;
  }

  lemma PairsAt(entries: seq<(Key, Value)>, data: Bytes, cursor: nat)
    requires entries != [] && At(data, cursor, JoinPairs(MapSeq(EntryPair, entries)))
    ensures var key, value := EntryPair(entries[0]).0, EntryPair(entries[0]).1;
            var rest := JoinPairs(MapSeq(EntryPair, entries[1..]));
            && At(data, cursor, key) && At(data, cursor + |key|, value) && At(data, cursor + |key| + |value|, rest)
            && |JoinPairs(MapSeq(EntryPair, entries))| == |key| + |value| + |rest|
  {
    hide EntryPair, At, JoinPairs;
    JoinPairsStep(entries);
    var key, value := EntryPair(entries[0]).0, EntryPair(entries[0]).1;
    var rest := JoinPairs(MapSeq(EntryPair, entries[1..]));
    AtSplit(data, cursor, key, value + rest);
    AtSplit(data, cursor + |key|, value, rest);
  }

  ghost predicate AllRead(entries: seq<(Key, Value)>, data: Bytes) {
    forall i | 0 <= i < |entries| :: EntryReads(entries[i], data)
  }

  lemma AllReadStep(entries: seq<(Key, Value)>, data: Bytes)
    requires entries != [] && AllRead(entries, data)
    ensures EntryReads(entries[0], data) && AllRead(entries[1..], data)
  {
    hide EntryReads;
  }

  lemma {:induction false} PairsRead(entries: seq<(Key, Value)>, data: Bytes, cursor: nat, dict: map<Item, Item>)
    requires AllRead(entries, data) && At(data, cursor, JoinPairs(MapSeq(EntryPair, entries)))
    ensures DecodePairs(data, cursor, |entries|, dict)
            == PairsOutcome(entries, dict, cursor + |JoinPairs(MapSeq(EntryPair, entries))|)
  {
    hide EntryPair, At, SmallEntry, EntryReads, AllRead, PairsOutcome, DecodePairs, JoinPairs, MapSeq, ToItem, KeyItem;
    if entries == [] {
      NoPairs(data, cursor, dict);
    } else {
      var next := cursor + |EntryPair(entries[0]).0| + |EntryPair(entries[0]).1|;
      var dict' := dict[KeyItem(entries[0].0) := ToItem(entries[0].1)];
      PairsAt(entries, data, cursor);
      AllReadStep(entries, data);
      PairReads(entries[0], data, cursor, |entries|, dict);
      PairsOutcomeStep(entries, dict, cursor + |JoinPairs(MapSeq(EntryPair, entries))|);
      PairsRead(entries[1..], data, next, dict');
    }
  }

  /**
    An encoded value followed by anything at all decodes to the value and exactly the encoded length if and only
    if every integer and integer key inside it lies in [-65536, 65535].
   */
  lemma RoundTripExactly(v: Value, rest: Bytes)
    requires Encode(v).Ok?
    ensures DecodeItem(Encode(v).value + rest, 0) == Some((ToItem(v), |Encode(v).value|)) <==> Small(v)
    ensures !Small(v) ==> DecodeItem(Encode(v).value + rest, 0) == None
  {
    hide DecodeItem, Encode, Small, ToItem;
    var b := Encode(v).value;
    assert (b + rest)[0..0 + |b|] == b;
    DecodeEncoded(v, b + rest, 0);
  }

  // ----- Two readings the decoder does not tell apart

  /** The two-key map with the number and content of a tag. */
  function TagMap(tag: nat, v: Value): Value {
    Map([(TextKey("tag"), Int(tag)), (TextKey("value"), v)])
  }

  lemma TagItems(tag: nat, v: Value)
    ensures ToItem(Tag(tag, v)) == ToItem(TagMap(tag, v))
    ensures tag < 0x100 ==> Small(Tag(tag, v)) == Small(TagMap(tag, v))
  {
    var tagEntry, valueEntry := (TextKey("tag"), Int(tag)), (TextKey("value"), v);
    assert |"tag"| != |"value"|;
    DictCons(tagEntry, [valueEntry]);
    DictCons(valueEntry, []);
    assert [tagEntry] + [valueEntry] == [tagEntry, valueEntry] && [valueEntry] + [] == [valueEntry];
    assert ToItem(Int(tag)) == IntItem(tag);
  }

  /** The decoder gives the same item for a tagged value and for the map, whatever follows either, or refuses both. */
  lemma TagReadsAsMap(tag: nat, v: Value, x: Bytes, y: Bytes)
    requires Encode(Tag(tag, v)).Ok? && Encode(TagMap(tag, v)).Ok?
    ensures var a, b := DecodeItem(Encode(Tag(tag, v)).value + x, 0), DecodeItem(Encode(TagMap(tag, v)).value + y, 0);
            (a.Some? <==> b.Some?) && (a.Some? ==> a.value.0 == b.value.0)
  {
    TagUnfold(tag, v);
    hide DecodeItem, Encode, TagMap, Small, ToItem;
    TagItems(tag, v);
    RoundTripExactly(Tag(tag, v), x);
    RoundTripExactly(TagMap(tag, v), y);
  }
}
