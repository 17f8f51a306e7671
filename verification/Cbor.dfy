/**
  The CBOR subset of the SCITT export: the `_encode_cbor_*` family, `_read_cbor_length` and
  `_decode_cbor_item` (section 3 of RFC 8949), with the boundary cases of the code.
 */
module Cbor {
  import opened Basics
  import opened Ordering
  import opened Text

  // ----- Encoding

  datatype Key = IntKey(n: int) | TextKey(s: string)

  /** An initial byte and up to two length bytes: the only shapes the decoder reads back. */
  function Header(major: int, n: nat): (r: Bytes)
    requires 0 <= major < 8 && n < 0x10000
    ensures 1 <= |r| <= 3
  {
    if n < 24 then [major * 32 + n]
    else if n < 0x100 then [major * 32 + 24, n]
    else [major * 32 + 25, n / 0x100, n % 0x100]
  }

  function EncodeUint(value: int): Result<Bytes> {
    if value < 0 then Err(OutOfRange)
    else if value < 0x10000 then Ok(Header(0, value))
    else if value < 0x100000000 then
      Ok([26, value / 0x1000000, value / 0x10000 % 0x100, value / 0x100 % 0x100, value % 0x100])
    else Err(OutOfRange)
  }

  function EncodeNint(value: int): Result<Bytes>
    requires value < 0
  {
    if -1 - value < 0x10000 then Ok(Header(1, -1 - value)) else Err(OutOfRange)
  }

  function EncodeInt(value: int): Result<Bytes> {
    if value >= 0 then EncodeUint(value) else EncodeNint(value)
  }

  function EncodeBstr(data: Bytes): Result<Bytes> {
    if |data| < 0x10000 then Ok(Header(2, |data|) + data) else Err(TooLong)
  }

  function EncodeTstr(value: string): Result<Bytes> {
    var data := Utf8(value);
    if |data| < 0x10000 then Ok(Header(3, |data|) + data) else Err(TooLong)
  }

  function Join(parts: seq<Bytes>): Bytes {
    if parts == [] then [] else parts[0] + Join(parts[1..])
  }

  /** From 256 entries on the length byte is out of range and `bytes` raises. */
  function EncodeArray(items: seq<Bytes>): Result<Bytes> {
    if |items| < 0x100 then Ok(Header(4, |items|) + Join(items)) else Err(OutOfRange)
  }

  function EncodeKey(key: Key): Result<Bytes> {
    match key
    case IntKey(n) => EncodeInt(n)
    case TextKey(s) => EncodeTstr(s)
  }

  type Pair = (Bytes, Bytes)

  predicate PairLeq(a: Pair, b: Pair) {
    LexLeq(a.0, b.0)
  }

  function EncodePairs(entries: seq<(Key, Bytes)>): (r: Result<seq<Pair>>)
    ensures r.Ok? ==> |r.value| == |entries|
  {
    if entries == [] then Ok([])
    else
      var key :- EncodeKey(entries[0].0);
      var rest :- EncodePairs(entries[1..]);
      Ok([(key, entries[0].1)] + rest)
  }

  function JoinPairs(pairs: seq<Pair>): Bytes {
    if pairs == [] then [] else pairs[0].0 + (pairs[0].1 + JoinPairs(pairs[1..]))
  }

  function EncodeMap(entries: seq<(Key, Bytes)>): Result<Bytes> {
    var encoded :- EncodePairs(entries);
    if |encoded| < 0x100 then Ok(Header(5, |encoded|) + JoinPairs(Sort(PairLeq, encoded))) else Err(OutOfRange)
  }

  function EncodeTag(tag: nat, item: Bytes): Result<Bytes> {
    if tag < 0x100 then Ok(Header(6, tag) + item) else Err(OutOfRange)
  }

  /** The append-then-sort loop of `_encode_cbor_map`. */
  method EncodeCborMap(entries: seq<(Key, Bytes)>) returns (r: Result<Bytes>)
    ensures r == EncodeMap(entries)
  {
    var encoded: seq<Pair> := [];
    var k := 0;
    assert entries[0..] == entries;
    assert forall rest: seq<Pair> :: encoded + rest == rest;
    while k < |entries|
      invariant 0 <= k <= |entries| && |encoded| == k
      invariant EncodePairs(entries) == match EncodePairs(entries[k..])
                                        case Ok(rest) => Ok(encoded + rest)
                                        case Err(e) => Err(e)
    {
      var key := EncodeKey(entries[k].0);
      if key.Err? {
        return Err(key.error);
      }
      PairsStep(encoded, (key.value, entries[k].1), entries, k);
      encoded := encoded + [(key.value, entries[k].1)];
      k := k + 1;
    }
    assert EncodePairs(entries[k..]) == Ok([]);
    assert encoded + [] == encoded;
    encoded := Sort(PairLeq, encoded);
    PairOrder();
    SortSorts(PairLeq, EncodePairs(entries).value);
    if |encoded| < 0x100 {
      r := Ok(Header(5, |encoded|) + JoinPairs(encoded));
    } else {
      r := Err(OutOfRange);
    }
  }

  lemma PairsStep(done: seq<Pair>, next: Pair, entries: seq<(Key, Bytes)>, k: nat)
    requires k < |entries| && EncodeKey(entries[k].0) == Ok(next.0) && entries[k].1 == next.1
    ensures EncodePairs(entries[k + 1..]).Ok? <==> EncodePairs(entries[k..]).Ok?
    ensures EncodePairs(entries[k + 1..]).Err? ==> EncodePairs(entries[k + 1..]) == EncodePairs(entries[k..])
    ensures EncodePairs(entries[k..]).Ok? ==>
              done + EncodePairs(entries[k..]).value == done + [next] + EncodePairs(entries[k + 1..]).value
  {
    assert entries[k..][1..] == entries[k + 1..];
    if EncodePairs(entries[k..]).Ok? {
      Assoc(done, [next], EncodePairs(entries[k + 1..]).value);
    }
  }

  lemma PairOrder()
    ensures TotalPreorder(PairLeq)
  {
    forall a: Pair, b: Pair ensures PairLeq(a, b) || PairLeq(b, a) {
      LexTotal(a.0, b.0);
    }
    forall a: Pair, b: Pair, c: Pair | PairLeq(a, b) && PairLeq(b, c) ensures PairLeq(a, c) {
      LexTransitive(a.0, b.0, c.0);
    }
  }

  // ----- Decoding

  /** What the decoder returns: Python ints, bytes, strings, lists and dicts. */
  datatype Item =
    | IntItem(n: int)
    | BytesItem(b: Bytes)
    | TextItem(s: string)
    | ListItem(items: seq<Item>)
    | DictItem(dict: map<Item, Item>)

  /** Lists and dicts cannot be dict keys. */
  predicate Hashable(item: Item) {
    item.IntItem? || item.BytesItem? || item.TextItem?
  }

  function ReadLength(data: Bytes, offset: nat, additional: nat): (r: Option<(nat, nat)>)
    requires offset <= |data|
    ensures r.Some? ==> offset <= r.value.1 <= |data|
  {
    if additional < 24 then Some((additional, offset))
    else if additional == 24 then
      if offset < |data| then Some((data[offset], offset + 1)) else None
    else if additional == 25 then
      if offset + 1 < |data| then Some((data[offset] as int * 0x100 + data[offset + 1], offset + 2)) else None
    else None
  }

  /** A Python slice: bounds past the end are clamped. */
  function Slice(data: Bytes, start: nat, end: nat): Bytes
    requires start <= |data| && start <= end
  {
    if end <= |data| then data[start..end] else data[start..]
  }

  /** A byte or text string whose header has been read; `end` may lie past the data. */
  function DecodeString(data: Bytes, text: bool, start: nat, length: nat): Option<(Item, nat)>
    requires start <= |data|
  {
    var slice := Slice(data, start, start + length);
    if !text then Some((BytesItem(slice), start + length))
    else
      var s := DecodeUtf8(slice);
      if s.None? then None else Some((TextItem(s.value), start + length))
  }

  function TagDict(tag: nat, value: Item): Item {
    DictItem(map[TextItem("tag") := IntItem(tag), TextItem("value") := value])
  }

  /** The item at `offset` and the offset after it; None when the code raises. */
  function DecodeItem(data: Bytes, offset: nat): (r: Option<(Item, nat)>)
    ensures r.Some? ==> offset < |data| && offset < r.value.1
    decreases |data| - offset, 0
  {
    if offset >= |data| then None
    else
      var major := data[offset] / 32;
      var read := ReadLength(data, offset + 1, data[offset] % 32);
      if read.None? then None
      else
        var (length, next) := read.value;
        if major == 0 then Some((IntItem(length), next))
        else if major == 1 then Some((IntItem(-1 - length), next))
        else if major == 2 || major == 3 then DecodeString(data, major == 3, next, length)
        else if major == 4 then
          var items := DecodeItems(data, next, length, []);
          if items.None? then None else Some((ListItem(items.value.0), items.value.1))
        else if major == 5 then
          var dict := DecodePairs(data, next, length, map[]);
          if dict.None? then None else Some((DictItem(dict.value.0), dict.value.1))
        else if major == 6 then
          var value := DecodeItem(data, next);
          if value.None? then None else Some((TagDict(length, value.value.0), value.value.1))
        else None
  }

  function DecodeItems(data: Bytes, cursor: nat, count: nat, items: seq<Item>): (r: Option<(seq<Item>, nat)>)
    ensures r.Some? ==> cursor <= r.value.1
    decreases |data| - cursor, count + 1
  {
    if count == 0 then Some((items, cursor))
    else
      var item := DecodeItem(data, cursor);
      if item.None? then None
      else DecodeItems(data, item.value.1, count - 1, items + [item.value.0])
  }

  function DecodePairs(data: Bytes, cursor: nat, count: nat, dict: map<Item, Item>): (r: Option<(map<Item, Item>, nat)>)
    ensures r.Some? ==> cursor <= r.value.1
    decreases |data| - cursor, count + 1
  {
    if count == 0 then Some((dict, cursor))
    else
      var key := DecodeItem(data, cursor);
      if key.None? then None
      else
        var value := DecodeItem(data, key.value.1);
        if value.None? || !Hashable(key.value.0) then None
        else DecodePairs(data, value.value.1, count - 1, dict[key.value.0 := value.value.0])
  }

  /** `_decode_cbor_item` with its loops: `cursor` advances while `items` and `mapping` grow. */
  method DecodeCborItem(data: Bytes, offset: nat) returns (r: Option<(Item, nat)>)
    ensures r == DecodeItem(data, offset)
    decreases |data| - offset, 0
  {
    hide ReadLength, DecodeString, TagDict, DecodeItems, DecodePairs;
    if offset >= |data| {
      return None;
    }
    var major, additional := data[offset] / 32, data[offset] % 32;
    var read := ReadLength(data, offset + 1, additional);
    if read.None? {
      return None;
    }
    var length: int, next := read.value.0, read.value.1;
    if major == 0 {
      return Some((IntItem(length), next));
    } else if major == 1 {
      return Some((IntItem(-1 - length), next));
    } else if major == 2 || major == 3 {
      return DecodeString(data, major == 3, next, length);
    } else if major == 4 {
      var items := DecodeCborList(data, next, length);
      return if items.None? then None else Some((ListItem(items.value.0), items.value.1));
    } else if major == 5 {
      var mapping := DecodeCborDict(data, next, length);
      return if mapping.None? then None else Some((DictItem(mapping.value.0), mapping.value.1));
    } else if major == 6 {
      var value := DecodeCborItem(data, next);
      return if value.None? then None else Some((TagDict(length, value.value.0), value.value.1));
    }
    return None;
  }

  method DecodeCborList(data: Bytes, start: nat, length: nat) returns (r: Option<(seq<Item>, nat)>)
    requires start <= |data|
    ensures r == DecodeItems(data, start, length, [])
    decreases |data| - start, 1
  {
    var items: seq<Item> := [];
    var cursor := start;
    for k := 0 to length
      invariant start <= cursor
      invariant DecodeItems(data, start, length, []) == DecodeItems(data, cursor, length - k, items)
    {
      hide DecodeItem;
      var item := DecodeCborItem(data, cursor);
      if item.None? {
        return None;
      }
      items, cursor := items + [item.value.0], item.value.1;
    }
    return Some((items, cursor));
  }

  method DecodeCborDict(data: Bytes, start: nat, length: nat) returns (r: Option<(map<Item, Item>, nat)>)
    requires start <= |data|
    ensures r == DecodePairs(data, start, length, map[])
    decreases |data| - start, 1
  {
    var mapping: map<Item, Item> := map[];
    var cursor := start;
    for k := 0 to length
      invariant start <= cursor
      invariant DecodePairs(data, start, length, map[]) == DecodePairs(data, cursor, length - k, mapping)
    {
      hide DecodeItem;
      var key := DecodeCborItem(data, cursor);
      if key.None? {
        return None;
      }
      var value := DecodeCborItem(data, key.value.1);
      if value.None? || !Hashable(key.value.0) {
        return None;
      }
      mapping, cursor := mapping[key.value.0 := value.value.0], value.value.1;
    }
    return Some((mapping, cursor));
  }
}
