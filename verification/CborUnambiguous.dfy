/** The encoder is prefix-free on every value it accepts, those the decoder refuses included. */
module CborUnambiguous {
  import opened Basics
  import opened Ordering
  import opened Text
  import opened Cbor
  import opened CborRoundTrip
  import opened CborMaps

  /** The initial byte of everything but integers starts with this type. */
  function Major(v: Value): int {
    match v
    case Int(n) => if n >= 0 then 0 else 1
    case Bstr(_) => 2
    case Tstr(_) => 3
    case Array(_) => 4
    case Map(_) => 5
    case Tag(_, _) => 6
  }

  /** The number in the header of a value that is not an integer. */
  function Count(v: Value): nat {
    match v
    case Int(_) => 0
    case Bstr(b) => |b|
    case Tstr(s) => |Utf8(s)|
    case Array(items) => |items|
    case Map(entries) => |entries|
    case Tag(tag, _) => tag
  }

  function EntryBytes(entries: seq<(Key, Value)>): Bytes {
    JoinPairs(MapSeq(EntryPair, Sort(EntryLeq, entries)))
  }

  /** What follows the header. */
  function Body(v: Value): Bytes
    requires Encode(v).Ok?
  {
    match v
    case Int(_) => []
    case Bstr(b) => b
    case Tstr(s) => Utf8(s)
    case Array(items) => if EncodeAll(items).Ok? then Join(EncodeAll(items).value) else []
    case Map(entries) => EntryBytes(entries)
    case Tag(_, item) => if Encode(item).Ok? then Encode(item).value else []
  }

  lemma Parts(v: Value)
    requires Encode(v).Ok? && !v.Int?
    ensures Count(v) < 0x10000 && Encode(v).value == Header(Major(v), Count(v)) + Body(v)
  {
    hide Header, Utf8, JoinPairs, MapSeq, Sort;
    match v
    case Array(items) => ArrayUnfold(items);
    case Map(entries) => MapBytes(entries);
    case Tag(tag, item) => TagUnfold(tag, item);
    case _ =>
  }

  lemma FirstByte(v: Value, x: Bytes)
    requires Encode(v).Ok?
    ensures var data := Encode(v).value + x; data != [] && data[0] / 32 == Major(v)
  {
    hide Encode, Body;
    if v.Int? {
      FirstByteOfInt(v.n);
    } else {
      Parts(v);
    }
  }

  lemma FirstByteOfInt(n: int)
    requires Encode(Int(n)).Ok?
    ensures Encode(Int(n)) == EncodeInt(n)
    ensures EncodeInt(n).value != [] && EncodeInt(n).value[0] / 32 == if n >= 0 then 0 else 1
  {
  }

  lemma HeaderUnambiguous(major: int, m: nat, n: nat, x: Bytes, y: Bytes)
    requires 0 <= major < 8 && m < 0x10000 && n < 0x10000 && Header(major, m) + x == Header(major, n) + y
    ensures m == n && x == y
  {
    hide ReadLength, Header;
    var p, q := Header(major, m), Header(major, n);
    var data := p + x;
    assert data[0..0 + |p|] == p && data[0..0 + |q|] == q;
    HeaderReads(data, 0, major, m);
    HeaderReads(data, 0, major, n);
    CancelPrefix(p, x, y);
  }

  /** Values of one type have their numbers and the rest of the data in common. */
  lemma SameHeader(v: Value, w: Value, x: Bytes, y: Bytes)
    requires Encode(v).Ok? && Encode(w).Ok? && !v.Int? && Major(v) == Major(w)
    requires Encode(v).value + x == Encode(w).value + y
    ensures Count(v) == Count(w) && Body(v) + x == Body(w) + y
  {
    hide Encode, Body, Header;
    Parts(v);
    Parts(w);
    Assoc(Header(Major(v), Count(v)), Body(v), x);
    Assoc(Header(Major(w), Count(w)), Body(w), y);
    HeaderUnambiguous(Major(v), Count(v), Count(w), Body(v) + x, Body(w) + y);
  }

  lemma SameLength<T>(a: seq<T>, b: seq<T>, x: seq<T>, y: seq<T>)
    requires |a| == |b| && a + x == b + y
    ensures a == b && x == y
  {
    assert a == (a + x)[..|a|] && b == (b + y)[..|b|];
    CancelPrefix(a, x, y);
  }

  /** The bytes determine what the value decodes to and where it ends. */
  lemma {:induction false} Unambiguous(v: Value, w: Value, x: Bytes, y: Bytes)
    requires Encode(v).Ok? && Encode(w).Ok? && Encode(v).value + x == Encode(w).value + y
    ensures ToItem(v) == ToItem(w) && x == y
    decreases v, 2
  {
    hide Encode, Body, EncodeInt, Utf8;
    FirstByte(v, x);
    FirstByte(w, y);
    match v
    case Int(n) => SameInt(n, w, x, y);
    case Bstr(b) =>
      SameHeader(v, w, x, y);
      SameString(v, w, x, y);
    case Tstr(s) =>
      SameHeader(v, w, x, y);
      SameString(v, w, x, y);
    case Array(items) =>
      SameHeader(v, w, x, y);
      ArrayUnfold(items);
      ArrayUnfold(w.items);
      BodyOfArray(items);
      BodyOfArray(w.items);
      SameItems(v, items, w.items, x, y);
    case Map(entries) =>
      SameHeader(v, w, x, y);
      SameMaps(v, w, x, y);
    case Tag(_, item) =>
      SameHeader(v, w, x, y);
      BodyOfTag(v);
      BodyOfTag(w);
      Unambiguous(item, w.item, x, y);
  }

  lemma SameInt(n: int, w: Value, x: Bytes, y: Bytes)
    requires Encode(Int(n)).Ok? && Encode(w).Ok? && w.Int? && Encode(Int(n)).value + x == Encode(w).value + y
    ensures ToItem(Int(n)) == ToItem(w) && x == y
  {
    hide EncodeInt;
    IntUnambiguous(n, w.n, x, y);
  }

  lemma SameString(v: Value, w: Value, x: Bytes, y: Bytes)
    requires Encode(v).Ok? && Encode(w).Ok? && Count(v) == Count(w) && Body(v) + x == Body(w) + y
    requires (v.Bstr? && w.Bstr?) || (v.Tstr? && w.Tstr?)
    ensures ToItem(v) == ToItem(w) && x == y
  {
    hide Encode, Utf8;
    SameLength(Body(v), Body(w), x, y);
    if v.Tstr? {
      Utf8Injective(v.s, w.s);
    }
  }

  lemma BodyOfArray(items: seq<Value>)
    requires Encode(Array(items)).Ok? && EncodeAll(items).Ok?
    ensures Body(Array(items)) == Join(EncodeAll(items).value)
  {
  }

  lemma BodyOfTag(v: Value)
    requires v.Tag? && Encode(v).Ok?
    ensures Encode(v.item).Ok? && Body(v) == Encode(v.item).value
  {
    TagUnfold(v.tag, v.item);
  }

  lemma {:induction false} SameItems(v: Value, s: seq<Value>, t: seq<Value>, x: Bytes, y: Bytes)
    requires |s| == |t| && EncodeAll(s).Ok? && EncodeAll(t).Ok? && (forall i | 0 <= i < |s| :: s[i] < v)
    requires Join(EncodeAll(s).value) + x == Join(EncodeAll(t).value) + y
    ensures ToItems(s) == ToItems(t) && x == y
    decreases v, 1, |s|
  {
    hide Encode, ToItem;
    if s == [] {
      assert [] + x == x && [] + y == y;
    } else {
      AllStep(s);
      AllStep(t);
      hide Join, EncodeAll;
      var a, b := Encode(s[0]).value, Encode(t[0]).value;
      var rest, rest' := Join(EncodeAll(s[1..]).value), Join(EncodeAll(t[1..]).value);
      Assoc(a, rest, x);
      Assoc(b, rest', y);
      Unambiguous(s[0], t[0], rest + x, rest' + y);
      SameItems(v, s[1..], t[1..], x, y);
    }
  }

  predicate AllEncode(s: seq<(Key, Value)>) {
    forall i | 0 <= i < |s| :: EntryEncodes(s[i])
  }

  ghost predicate EntriesOf(s: seq<(Key, Value)>, v: Value) {
    v.Map? && forall i | 0 <= i < |s| :: s[i] in v.entries
  }

  lemma {:induction false} SameMaps(v: Value, w: Value, x: Bytes, y: Bytes)
    requires v.Map? && w.Map? && Encode(v).Ok? && Encode(w).Ok? && Count(v) == Count(w) && Body(v) + x == Body(w) + y
    ensures ToItem(v) == ToItem(w) && x == y
    decreases v, 1
  {
    hide Encode, EntryPair, JoinPairs, EntryEncodes, ToDict;
    var s, t := Sort(EntryLeq, v.entries), Sort(EntryLeq, w.entries);
    MapBytes(v.entries);
    MapBytes(w.entries);
    SortedEntries(v.entries);
    SortedEntries(w.entries);
    SortDict(v.entries);
    SortDict(w.entries);
    assert AllEncode(s) && AllEncode(t) && EntriesOf(s, v);
    SameEntries(v, s, t, x, y);
  }

  lemma EntryBytesOf(e: (Key, Value))
    requires EntryEncodes(e)
    ensures EntryPair(e) == (EncodeKey(e.0).value, Encode(e.1).value)
  {
  }

  lemma EntriesStep(v: Value, s: seq<(Key, Value)>, t: seq<(Key, Value)>)
    requires |s| == |t| && s != [] && AllEncode(s) && AllEncode(t) && EntriesOf(s, v)
    ensures EntryEncodes(s[0]) && EntryEncodes(t[0]) && s[0] in v.entries
    ensures AllEncode(s[1..]) && AllEncode(t[1..]) && EntriesOf(s[1..], v)
  {
    hide EntryEncodes;
  }

  lemma {:induction false} SameEntry(v: Value, d: (Key, Value), e: (Key, Value), x: Bytes, y: Bytes)
    requires v.Map? && d in v.entries && EntryEncodes(d) && EntryEncodes(e)
    requires EntryPair(d).0 + (EntryPair(d).1 + x) == EntryPair(e).0 + (EntryPair(e).1 + y)
    ensures d.0 == e.0 && ToItem(d.1) == ToItem(e.1) && x == y
    decreases v, 0, 0
  {
    EntryBytesOf(d);
    EntryBytesOf(e);
    hide Encode, EncodeKey, EntryPair, ToItem;
    KeyUnambiguous(d.0, e.0, EntryPair(d).1 + x, EntryPair(e).1 + y);
    var i :| 0 <= i < |v.entries| && v.entries[i] == d;
    Unambiguous(v.entries[i].1, e.1, x, y);
  }

  lemma Regroup(a: Bytes, b: Bytes, c: Bytes, x: Bytes)
    ensures a + (b + c) + x == a + (b + (c + x))
  {
    Assoc(a, b + c, x);
    Assoc(b, c, x);
  }

  lemma {:induction false} SameEntries(v: Value, s: seq<(Key, Value)>, t: seq<(Key, Value)>, x: Bytes, y: Bytes)
    requires |s| == |t| && AllEncode(s) && AllEncode(t) && EntriesOf(s, v)
    requires JoinPairs(MapSeq(EntryPair, s)) + x == JoinPairs(MapSeq(EntryPair, t)) + y
    ensures ToDict(s) == ToDict(t) && x == y
    decreases v, 0, |s|
  {
    hide EntryEncodes, EntryPair, ToItem, KeyItem;
    if s == [] {
      assert [] + x == x && [] + y == y;
    } else {
      EntriesStep(v, s, t);
      JoinPairsStep(s);
      JoinPairsStep(t);
      hide JoinPairs, MapSeq, AllEncode, EntriesOf;
      var rest, rest' := JoinPairs(MapSeq(EntryPair, s[1..])), JoinPairs(MapSeq(EntryPair, t[1..]));
      Regroup(EntryPair(s[0]).0, EntryPair(s[0]).1, rest, x);
      Regroup(EntryPair(t[0]).0, EntryPair(t[0]).1, rest', y);
      SameEntry(v, s[0], t[0], rest + x, rest' + y);
      SameEntries(v, s[1..], t[1..], x, y);
      HeadTail(s);
      HeadTail(t);
      DictCons(s[0], s[1..]);
      DictCons(t[0], t[1..]);
    }
  }

  /** No encoding is a proper prefix of another, and equal bytes mean equal decoded values. */
  lemma PrefixFree(v: Value, w: Value, x: Bytes, y: Bytes)
    requires Encode(v).Ok? && Encode(w).Ok?
    requires Encode(v).value + x == Encode(w).value + y
    ensures Encode(v) == Encode(w) && ToItem(v) == ToItem(w) && x == y
  {
    hide Encode, ToItem;
    Unambiguous(v, w, x, y);
    SameLength(Encode(v).value, Encode(w).value, x, y);
  }
}
