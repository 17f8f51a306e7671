/**
  Python text primitives: UTF-8 (strict codec), hexadecimal, `str.strip`, `str.lower`
  and the character classes of the regular expressions in use.
  Characters are Unicode scalar values; lower-casing is ASCII only.
 */
module Text {
  import opened Basics

  // ----- UTF-8

  function EncodeChar(c: char): (r: Bytes)
    ensures 1 <= |r| <= 4
  {
    var v := c as int;
    if v < 0x80 then [v]
    else if v < 0x800 then [0xC0 + v / 64, 0x80 + v % 64]
    else if v < 0x10000 then [0xE0 + v / 4096, 0x80 + v / 64 % 64, 0x80 + v % 64]
    else [0xF0 + v / 262144, 0x80 + v / 4096 % 64, 0x80 + v / 64 % 64, 0x80 + v % 64]
  }

  function Utf8(s: string): Bytes {
    if s == [] then [] else EncodeChar(s[0]) + Utf8(s[1..])
  }

  predicate Continuation(b: Byte) {
    0x80 <= b < 0xC0
  }

  /** The payload of a byte under its marker bits. */
  function Bits(b: Byte, marker: int): int {
    b as int - marker
  }

  /** One character off the front of `data`, refusing overlong forms, surrogates and truncation. */
  function DecodeChar(data: Bytes): (r: Option<(char, nat)>)
    ensures r.Some? ==> 1 <= r.value.1 <= |data|
  {
    if data == [] then None
    else if data[0] < 0x80 then Some((data[0] as char, 1))
    else if 0xC2 <= data[0] < 0xE0 then
      if |data| >= 2 && Continuation(data[1]) then
        Some(((Bits(data[0], 0xC0) * 64 + Bits(data[1], 0x80)) as char, 2))
      else None
    else if 0xE0 <= data[0] < 0xF0 then
      if |data| >= 3 && Continuation(data[1]) && Continuation(data[2]) then
        var v := Bits(data[0], 0xE0) * 4096 + Bits(data[1], 0x80) * 64 + Bits(data[2], 0x80);
        if 0x800 <= v && !(0xD800 <= v < 0xE000) then Some((v as char, 3)) else None
      else None
    else if 0xF0 <= data[0] < 0xF5 then
      if |data| >= 4 && Continuation(data[1]) && Continuation(data[2]) && Continuation(data[3]) then
        var v := Bits(data[0], 0xF0) * 262144 + Bits(data[1], 0x80) * 4096 + Bits(data[2], 0x80) * 64
          + Bits(data[3], 0x80);
        if 0x10000 <= v < 0x110000 then Some((v as char, 4)) else None
      else None
    else None
  }

  function DecodeUtf8(data: Bytes): Option<string>
    decreases |data|
  {
    if data == [] then Some([])
    else
      var head := DecodeChar(data);
      if head.None? then None
      else
        var tail := DecodeUtf8(data[head.value.1..]);
        if tail.None? then None else Some([head.value.0] + tail.value)
  }

  lemma Division(v: int)
    requires 0 <= v
    ensures v == v / 64 * 64 + v % 64
  {
  }

  lemma TwoDivisions(v: int)
    requires 0 <= v
    ensures v / 4096 == v / 64 / 64 && v / 262144 == v / 64 / 64 / 64
  {
  }

  lemma ThreeSextets(v: int)
    requires 0 <= v
    ensures v == v / 64 * 64 + v % 64
    ensures v == v / 4096 * 4096 + v / 64 % 64 * 64 + v % 64
    ensures v == v / 262144 * 262144 + v / 4096 % 64 * 4096 + v / 64 % 64 * 64 + v % 64
  {
    TwoDivisions(v);
    Division(v);
    Division(v / 64);
    Division(v / 64 / 64);
  }

  /** The decoder looks only at the bytes of the first character. */
  lemma DecodeCharPrefix(data: Bytes, rest: Bytes)
    requires DecodeChar(data).Some?
    ensures DecodeChar(data + rest) == DecodeChar(data)
  {
    assert forall i :: 0 <= i < |data| ==> (data + rest)[i] == data[i];
  }

  lemma DecodeEncodedChar(c: char, rest: Bytes)
    ensures DecodeChar(EncodeChar(c) + rest) == Some((c, |EncodeChar(c)|))
  {
    ThreeSextets(c as int);
    assert DecodeChar(EncodeChar(c)) == Some((c, |EncodeChar(c)|));
    DecodeCharPrefix(EncodeChar(c), rest);
  }

  /** Decoding inverts encoding. */
  lemma {:induction false} Utf8RoundTrip(s: string)
    ensures DecodeUtf8(Utf8(s)) == Some(s)
  {
    if s != [] {
      DecodeEncodedChar(s[0], Utf8(s[1..]));
      assert Utf8(s)[|EncodeChar(s[0])|..] == Utf8(s[1..]);
      Utf8RoundTrip(s[1..]);
      assert s == [s[0]] + s[1..];
    }
  }

  lemma Utf8Injective(a: string, b: string)
    requires Utf8(a) == Utf8(b)
    ensures a == b
  {
    Utf8RoundTrip(a);
    Utf8RoundTrip(b);
  }

  // ----- Hexadecimal

  predicate IsHexDigit(c: char) {
    '0' <= c <= '9' || 'a' <= c <= 'f'
  }

  predicate IsHex(s: string) {
    forall i :: 0 <= i < |s| ==> IsHexDigit(s[i])
  }

  function HexDigit(n: int): (c: char)
    requires 0 <= n < 16
    ensures IsHexDigit(c) && HexValue(c) == n
  {
    if n < 10 then ('0' as int + n) as char else ('a' as int + n - 10) as char
  }

  function HexValue(c: char): (n: int)
    requires IsHexDigit(c)
    ensures 0 <= n < 16
  {
    if c <= '9' then c as int - '0' as int else c as int - 'a' as int + 10
  }

  /** `bytes.hex()` */
  function Hex(data: Bytes): (s: string)
    ensures |s| == 2 * |data|
    ensures IsHex(s)
  {
    if data == [] then [] else [HexDigit(data[0] / 16), HexDigit(data[0] % 16)] + Hex(data[1..])
  }

  predicate IsAsciiSpace(c: char) {
    c == ' ' || '\t' <= c <= '\r'
  }

  /** `bytes.fromhex` on lower-case text: spaces may separate octets, anything else raises. */
  function FromHex(s: string): Option<Bytes>
    decreases |s|
  {
    if s == [] then Some([])
    else if IsAsciiSpace(s[0]) then FromHex(s[1..])
    else if |s| >= 2 && IsHexDigit(s[0]) && IsHexDigit(s[1]) then
      var rest := FromHex(s[2..]);
      if rest.None? then None else Some([HexValue(s[0]) * 16 + HexValue(s[1])] + rest.value)
    else None
  }

  lemma {:induction false} FromHexRoundTrip(data: Bytes)
    ensures FromHex(Hex(data)) == Some(data)
  {
    if data != [] {
      FromHexRoundTrip(data[1..]);
      var s := Hex(data);
      assert s[2..] == Hex(data[1..]);
      assert !IsAsciiSpace(s[0]);
      assert HexValue(s[0]) * 16 + HexValue(s[1]) == data[0];
      assert data == [data[0]] + data[1..];
    }
  }

  lemma HexInjective(a: Bytes, b: Bytes)
    requires Hex(a) == Hex(b)
    ensures a == b
  {
    FromHexRoundTrip(a);
    FromHexRoundTrip(b);
  }

  lemma HexOctet(a: char, b: char)
    requires IsHexDigit(a) && IsHexDigit(b)
    ensures var h := HexValue(a) * 16 + HexValue(b);
            0 <= h < 256 && HexDigit(h / 16) == a && HexDigit(h % 16) == b
  {
    var h := HexValue(a) * 16 + HexValue(b);
    assert h / 16 == HexValue(a) && h % 16 == HexValue(b);
  }

  lemma HexCons(b: Byte, data: Bytes)
    ensures Hex([b] + data) == [HexDigit(b / 16), HexDigit(b % 16)] + Hex(data)
  {
    assert ([b] + data)[1..] == data;
  }

  lemma FromHexStep(s: string)
    requires |s| >= 2 && IsHexDigit(s[0]) && IsHexDigit(s[1]) && FromHex(s[2..]).Some?
    ensures FromHex(s) == Some([HexValue(s[0]) * 16 + HexValue(s[1])] + FromHex(s[2..]).value)
  {
  }

  lemma TwoThenRest(s: string)
    requires |s| >= 2
    ensures s == [s[0], s[1]] + s[2..]
  {
  }

  /** On an even run of hexadecimal digits `fromhex` succeeds and `hex` undoes it. */
  lemma {:induction false} HexFromHex(s: string)
    requires IsHex(s) && |s| % 2 == 0
    ensures FromHex(s).Some? && |FromHex(s).value| == |s| / 2 && Hex(FromHex(s).value) == s
    decreases |s|
  {
    if s != [] {
      hide Hex, FromHex, HexValue, HexDigit;
      HexFromHex(s[2..]);
      HexOctet(s[0], s[1]);
      FromHexStep(s);
      HexCons(HexValue(s[0]) * 16 + HexValue(s[1]), FromHex(s[2..]).value);
      TwoThenRest(s);
    }
  }

  // ----- strip, lower

  /** The characters `str.strip()` removes. */
  predicate IsSpace(c: char) {
    || '\t' <= c <= '\r' || '\U{001C}' <= c <= ' ' || c == '\U{0085}' || c == '\U{00A0}'
    || c == '\U{1680}' || '\U{2000}' <= c <= '\U{200A}' || c == '\U{2028}' || c == '\U{2029}'
    || c == '\U{202F}' || c == '\U{205F}' || c == '\U{3000}'
  }

  function StripLeft(s: string): (r: string)
    ensures |r| <= |s| && r == s[|s| - |r|..]
    ensures r == [] || !IsSpace(r[0])
    ensures s != [] && !IsSpace(s[0]) ==> r == s
  {
    if s != [] && IsSpace(s[0]) then StripLeft(s[1..]) else s
  }

  function StripRight(s: string): (r: string)
    ensures |r| <= |s| && r == s[..|r|]
    ensures r == [] || !IsSpace(r[|r| - 1])
    ensures s != [] && !IsSpace(s[|s| - 1]) ==> r == s
  {
    if s != [] && IsSpace(s[|s| - 1]) then StripRight(s[..|s| - 1]) else s
  }

  function Strip(s: string): string {
    StripRight(StripLeft(s))
  }

  /** No whitespace at either end. */
  predicate Trimmed(s: string) {
    s == [] || (!IsSpace(s[0]) && !IsSpace(s[|s| - 1]))
  }

  lemma StripTrims(s: string)
    ensures Trimmed(Strip(s))
  {
    hide IsSpace;
    var t := StripLeft(s);
    var r := StripRight(t);
    if r != [] {
      assert r[0] == t[0];
    }
  }

  lemma StripTrimmed(s: string)
    requires Trimmed(s)
    ensures Strip(s) == s
  {
  }

  lemma StripTwice(s: string)
    ensures Strip(Strip(s)) == Strip(s)
  {
    StripTrims(s);
    StripTrimmed(Strip(s));
  }

  function LowerChar(c: char): char {
    if 'A' <= c <= 'Z' then c + 32 as char else c
  }

  function Lower(s: string): (r: string)
    ensures |r| == |s|
    ensures forall i :: 0 <= i < |s| ==> r[i] == LowerChar(s[i])
  {
    seq(|s|, i requires 0 <= i < |s| => LowerChar(s[i]))
  }

  function StripLower(s: string): string {
    Lower(Strip(s))
  }

  /** Text that `.strip().lower()` leaves alone. */
  predicate Folded(s: string) {
    Trimmed(s) && forall i :: 0 <= i < |s| ==> !('A' <= s[i] <= 'Z')
  }

  lemma LowerFolds(s: string)
    requires Trimmed(s)
    ensures Folded(Lower(s))
  {
  }

  lemma StripLowerFolds(s: string)
    ensures Folded(StripLower(s))
  {
    StripTrims(s);
    LowerFolds(Strip(s));
  }

  lemma FoldedFixed(s: string)
    requires Folded(s)
    ensures StripLower(s) == s && Strip(s) == s
  {
    StripTrimmed(s);
    assert Lower(s) == s;
  }

  lemma FoldTwice(s: string)
    ensures StripLower(StripLower(s)) == StripLower(s)
  {
    StripLowerFolds(s);
    FoldedFixed(StripLower(s));
  }

  lemma HexFolded(s: string)
    requires IsHex(s)
    ensures Folded(s)
  {
  }

  // ----- the regular expressions

  /** `[0-9a-f]{64}` */
  predicate IsHex64(s: string) {
    |s| == 64 && IsHex(s)
  }

  predicate IsLowerAlnum(c: char) {
    'a' <= c <= 'z' || '0' <= c <= '9'
  }

  /** `[a-z0-9][a-z0-9._:/-]{0,127}` */
  predicate IsScopeToken(s: string) {
    && 1 <= |s| <= 128
    && IsLowerAlnum(s[0])
    && forall i :: 1 <= i < |s| ==> IsLowerAlnum(s[i]) || s[i] in "._:/-"
  }

  /** `[0-9a-f]{8}-[0-9a-f]{4}-[0-9a-f]{4}-[0-9a-f]{4}-[0-9a-f]{12}` */
  predicate IsUuid(s: string) {
    && |s| == 36
    && forall i :: 0 <= i < 36 ==> if i in {8, 13, 18, 23} then s[i] == '-' else IsHexDigit(s[i])
  }

  lemma UuidFolded(s: string)
    requires IsUuid(s)
    ensures Folded(s) && s != []
  {
    forall i | 0 <= i < 36 ensures !IsSpace(s[i]) && !('A' <= s[i] <= 'Z') {
    }
  }

  /** `_require_hex64` followed by `bytes.fromhex`. */
  function ParseHex64(value: string): (r: Result<Digest>)
    ensures r.Ok? <==> IsHex64(StripLower(value))
    ensures r.Ok? ==> Hex(r.value) == StripLower(value)
  {
    var normalized := StripLower(value);
    if IsHex64(normalized) then
      HexFromHex(normalized);
      Ok(FromHex(normalized).value)
    else Err(Malformed)
  }

  lemma ParseHex64OfHex(d: Digest)
    ensures ParseHex64(Hex(d)) == Ok(d)
  {
    HexFolded(Hex(d));
    FoldedFixed(Hex(d));
    FromHexRoundTrip(d);
  }

  /** A folded key is allowed when no keys are configured or it is one of them. */
  predicate AllowsKey(keyHex: string, trusted: seq<string>) {
    trusted == [] || exists i | 0 <= i < |trusted| :: StripLower(trusted[i]) == keyHex
  }
}
