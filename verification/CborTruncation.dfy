/**
  Truncated input. Python slices past the end are clamped, so a cut-off string is returned short with the cursor
  past the end. On arbitrary data the cursor stays inside exactly when the result does not change as bytes are
  appended, and one appended byte already tells.
 */
module CborTruncation {
  import opened Basics
  import opened Text
  import opened Cbor

  /** The letter a, a complete UTF-8 character. */
  const PROBE: Bytes := [0x61]

  // ----- Reading on longer data

  lemma ReadLengthAppended(data: Bytes, offset: nat, additional: nat, suffix: Bytes)
    requires offset <= |data| && ReadLength(data, offset, additional).Some?
    ensures ReadLength(data + suffix, offset, additional) == ReadLength(data, offset, additional)
  {
    assert forall i | 0 <= i < |data| :: (data + suffix)[i] == data[i];
  }

  lemma SliceAppended(data: Bytes, start: nat, end: nat, suffix: Bytes)
    requires start <= end && start <= |data|
    ensures end <= |data| ==> Slice(data + suffix, start, end) == Slice(data, start, end)
    ensures end > |data| && |suffix| == 1 ==> Slice(data + suffix, start, end) == Slice(data, start, end) + suffix
  {
    if end <= |data| {
      assert (data + suffix)[start..end] == data[start..end];
    } else if |suffix| == 1 {
      assert (data + suffix)[start..] == data[start..] + suffix;
      assert end == |data| + 1 ==> (data + suffix)[start..end] == (data + suffix)[start..];
    }
  }

  lemma ProbeText()
    ensures DecodeUtf8(PROBE) == Some("a")
  {
    assert DecodeChar(PROBE) == Some(('a', 1));
    assert PROBE[1..] == [] && DecodeUtf8([]) == Some([]);
    assert ['a'] + [] == "a";
  }

  /** Text stays text when a complete character follows. */
  lemma {:induction false} DecodeUtf8Probe(data: Bytes)
    requires DecodeUtf8(data).Some?
    ensures DecodeUtf8(data + PROBE) == Some(DecodeUtf8(data).value + "a")
    decreases |data|
  {
    if data == [] {
      assert data + PROBE == PROBE && [] + "a" == "a";
      ProbeText();
    } else {
      hide DecodeChar;
      var head := DecodeChar(data).value;
      DecodeCharPrefix(data, PROBE);
      assert (data + PROBE)[head.1..] == data[head.1..] + PROBE;
      DecodeUtf8Probe(data[head.1..]);
      Assoc([head.0], DecodeUtf8(data[head.1..]).value, "a");
    }
  }

  lemma StringAppended(data: Bytes, text: bool, start: nat, length: nat, suffix: Bytes)
    requires start + length <= |data|
    ensures DecodeString(data + suffix, text, start, length) == DecodeString(data, text, start, length)
  {
    SliceAppended(data, start, start + length, suffix);
  }

  lemma StringOverrun(data: Bytes, text: bool, start: nat, length: nat)
    requires start <= |data| < start + length && DecodeString(data, text, start, length).Some?
    ensures Grows(DecodeString(data, text, start, length), DecodeString(data + PROBE, text, start, length))
  {
    hide Slice;
    var slice := Slice(data, start, start + length);
    SliceAppended(data, start, start + length, PROBE);
    if text {
      DecodeUtf8Probe(slice);
      assert |DecodeUtf8(slice).value + "a"| > |DecodeUtf8(slice).value|;
    } else {
      assert |slice + PROBE| > |slice|;
    }
  }

  /** Both succeed and end alike, with different results. */
  predicate Grows<T(==)>(r: Option<(T, nat)>, r': Option<(T, nat)>) {
    r.Some? && r'.Some? && r.value.1 == r'.value.1 && r.value.0 != r'.value.0
  }

  // ----- A result inside the data does not change

  lemma {:induction false} ItemAppended(data: Bytes, offset: nat, suffix: Bytes)
    requires DecodeItem(data, offset).Some? && DecodeItem(data, offset).value.1 <= |data|
    ensures DecodeItem(data + suffix, offset) == DecodeItem(data, offset)
    decreases |data| - offset, 0
  {
    hide ReadLength, DecodeString, DecodeItems, DecodePairs;
    assert (data + suffix)[offset] == data[offset];
    var major, additional := data[offset] / 32, data[offset] % 32;
    ReadLengthAppended(data, offset + 1, additional, suffix);
    var read := ReadLength(data, offset + 1, additional).value;
    var length: nat, next := read.0, read.1;
    if major == 2 || major == 3 {
      StringEnd(data, major == 3, next, length);
      StringAppended(data, major == 3, next, length, suffix);
    } else if major == 4 {
      ItemsAppended(data, next, length, [], suffix);
    } else if major == 5 {
      PairsAppended(data, next, length, map[], suffix);
    } else if major == 6 {
      ItemAppended(data, next, suffix);
    }
  }

  lemma StringEnd(data: Bytes, text: bool, start: nat, length: nat)
    requires start <= |data| && DecodeString(data, text, start, length).Some?
    ensures DecodeString(data, text, start, length).value.1 == start + length
  {
  }

  lemma {:induction false} ItemsAppended(data: Bytes, cursor: nat, count: nat, items: seq<Item>, suffix: Bytes)
    requires DecodeItems(data, cursor, count, items).Some? && DecodeItems(data, cursor, count, items).value.1 <= |data|
    ensures DecodeItems(data + suffix, cursor, count, items) == DecodeItems(data, cursor, count, items)
    decreases |data| - cursor, count + 1
  {
    hide DecodeItem;
    if count > 0 {
      var item := DecodeItem(data, cursor).value;
      ItemAppended(data, cursor, suffix);
      ItemsAppended(data, item.1, count - 1, items + [item.0], suffix);
    }
  }

  lemma {:induction false} PairsAppended(data: Bytes, cursor: nat, count: nat, dict: map<Item, Item>, suffix: Bytes)
    requires DecodePairs(data, cursor, count, dict).Some? && DecodePairs(data, cursor, count, dict).value.1 <= |data|
    ensures DecodePairs(data + suffix, cursor, count, dict) == DecodePairs(data, cursor, count, dict)
    decreases |data| - cursor, count + 1
  {
    hide DecodeItem;
    if count > 0 {
      var key := DecodeItem(data, cursor).value;
      var value := DecodeItem(data, key.1).value;
      ItemAppended(data, cursor, suffix);
      ItemAppended(data, key.1, suffix);
      PairsAppended(data, value.1, count - 1, dict[key.0 := value.0], suffix);
    }
  }

  // ----- A result past the end changes with one more byte

  lemma {:induction false} ItemOverrun(data: Bytes, offset: nat)
    requires DecodeItem(data, offset).Some? && DecodeItem(data, offset).value.1 > |data|
    ensures Grows(DecodeItem(data, offset), DecodeItem(data + PROBE, offset))
    decreases |data| - offset, 0
  {
    hide ReadLength, DecodeString, DecodeItems, DecodePairs, PROBE;
    assert (data + PROBE)[offset] == data[offset];
    var major, additional := data[offset] / 32, data[offset] % 32;
    ReadLengthAppended(data, offset + 1, additional, PROBE);
    var read := ReadLength(data, offset + 1, additional).value;
    var length: nat, next := read.0, read.1;
    if major == 2 || major == 3 {
      StringEnd(data, major == 3, next, length);
      StringOverrun(data, major == 3, next, length);
    } else if major == 4 {
      ItemsOverrun(data, next, length, []);
    } else if major == 5 {
      PairsOverrun(data, next, length, map[]);
    } else if major == 6 {
      ItemOverrun(data, next);
      TagDictInjective(length, DecodeItem(data, next).value.0, DecodeItem(data + PROBE, next).value.0);
    }
  }

  lemma TagDictInjective(tag: nat, a: Item, b: Item)
    requires a != b
    ensures TagDict(tag, a) != TagDict(tag, b)
  {
    assert TagDict(tag, a).dict[TextItem("value")] == a && TagDict(tag, b).dict[TextItem("value")] == b;
  }

  lemma NothingPastEnd(data: Bytes, cursor: nat)
    requires cursor > |data|
    ensures DecodeItem(data, cursor) == None && DecodeItem(data + PROBE, cursor) == None
  {
  }

  lemma {:induction false} ItemsOverrun(data: Bytes, cursor: nat, count: nat, items: seq<Item>)
    requires cursor <= |data|
    requires DecodeItems(data, cursor, count, items).Some? && DecodeItems(data, cursor, count, items).value.1 > |data|
    ensures Grows(DecodeItems(data, cursor, count, items), DecodeItems(data + PROBE, cursor, count, items))
    decreases |data| - cursor, count + 1
  {
    hide DecodeItem, PROBE;
    var item := DecodeItem(data, cursor).value;
    if item.1 <= |data| {
      ItemAppended(data, cursor, PROBE);
      ItemsOverrun(data, item.1, count - 1, items + [item.0]);
    } else {
      ItemOverrun(data, cursor);
      NothingPastEnd(data, item.1);
      var item' := DecodeItem(data + PROBE, cursor).value;
      assert (items + [item.0])[|items|] != (items + [item'.0])[|items|];
    }
  }

  lemma {:induction false} PairsOverrun(data: Bytes, cursor: nat, count: nat, dict: map<Item, Item>)
    requires cursor <= |data|
    requires DecodePairs(data, cursor, count, dict).Some? && DecodePairs(data, cursor, count, dict).value.1 > |data|
    ensures Grows(DecodePairs(data, cursor, count, dict), DecodePairs(data + PROBE, cursor, count, dict))
    decreases |data| - cursor, count + 1
  {
    hide DecodeItem, PROBE;
    var key := DecodeItem(data, cursor).value;
    if key.1 > |data| {
      NothingPastEnd(data, key.1);
      assert false;
    }
    ItemAppended(data, cursor, PROBE);
    var value := DecodeItem(data, key.1).value;
    if value.1 <= |data| {
      ItemAppended(data, key.1, PROBE);
      PairsOverrun(data, value.1, count - 1, dict[key.0 := value.0]);
    } else {
      ItemOverrun(data, key.1);
      NothingPastEnd(data, value.1);
      var value' := DecodeItem(data + PROBE, key.1).value;
      assert dict[key.0 := value.0][key.0] != dict[key.0 := value'.0][key.0];
    }
  }

  // ----- Main result

  predicate StableUnder(data: Bytes, offset: nat, suffix: Bytes) {
    DecodeItem(data + suffix, offset) == DecodeItem(data, offset)
  }

  /** The cursor of a decoded item stays inside the data exactly when no appended bytes change the result. */
  lemma InsideExactlyStable(data: Bytes, offset: nat)
    requires DecodeItem(data, offset).Some?
    ensures DecodeItem(data, offset).value.1 <= |data| <==> forall suffix :: StableUnder(data, offset, suffix)
    ensures DecodeItem(data, offset).value.1 <= |data| <==> StableUnder(data, offset, PROBE)
  {
    hide DecodeItem, PROBE;
    if DecodeItem(data, offset).value.1 <= |data| {
      forall suffix ensures StableUnder(data, offset, suffix) {
        ItemAppended(data, offset, suffix);
      }
    } else {
      ItemOverrun(data, offset);
      assert !StableUnder(data, offset, PROBE);
    }
  }

  /** Past the end, one more byte gives another item with the same cursor: what was read is not what was sent. */
  lemma OverrunMisreads(data: Bytes, offset: nat)
    requires DecodeItem(data, offset).Some? && DecodeItem(data, offset).value.1 > |data|
    ensures DecodeItem(data + PROBE, offset).Some?
    ensures DecodeItem(data + PROBE, offset).value.1 == DecodeItem(data, offset).value.1
    ensures DecodeItem(data + PROBE, offset).value.0 != DecodeItem(data, offset).value.0
  {
    ItemOverrun(data, offset);
  }

  /** Such data exists: two of the three announced bytes are missing. */
  lemma TruncatedExample()
    ensures DecodeItem([0x43, 0x01], 0) == Some((BytesItem([0x01]), 4))
  {
    var data: Bytes := [0x43, 0x01];
    assert data[1..] == [0x01];
  }
}
