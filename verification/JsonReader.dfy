/**
  A reader of JSON text without white space, after the grammar of RFC 8259: it knows nothing of the printer. What is
  printed reads back as the value and stops where the value ends, so the text is JSON and determines the value.
 */
module JsonReader {
  import opened Basics
  import opened Text
  import opened Json

  // ----- Reading

  /** A hexadecimal digit of either case. */
  function AnyHexValue(c: char): Option<int> {
    if '0' <= c <= '9' then Some(c as int - '0' as int)
    else if 'a' <= c <= 'f' then Some(c as int - 'a' as int + 10)
    else if 'A' <= c <= 'F' then Some(c as int - 'A' as int + 10)
    else None
  }

  /** Four hexadecimal digits. */
  function ReadQuad(s: string): (r: Option<int>)
    ensures r.Some? ==> |s| >= 4 && 0 <= r.value < 0x10000
  {
    if |s| < 4 then None
    else
      var a, b, c, d := AnyHexValue(s[0]), AnyHexValue(s[1]), AnyHexValue(s[2]), AnyHexValue(s[3]);
      if a.None? || b.None? || c.None? || d.None? then None
      else Some(a.value * 0x1000 + b.value * 0x100 + c.value * 0x10 + d.value)
  }

  /** After a reversed solidus and u: one code unit, or a surrogate pair as in section 7 of RFC 8259. */
  function ReadUnicode(s: string): (r: Option<(char, string)>)
    ensures r.Some? ==> |r.value.1| < |s|
  {
    var unit := ReadQuad(s);
    if unit.None? then None
    else if !(0xD800 <= unit.value < 0xE000) then Some((unit.value as char, s[4..]))
    else if unit.value >= 0xDC00 || |s| < 6 || s[4] != '\\' || s[5] != 'u' then None
    else
      var low := ReadQuad(s[6..]);
      if low.None? || !(0xDC00 <= low.value < 0xE000) then None
      else Some(((0x10000 + (unit.value - 0xD800) * 0x400 + (low.value - 0xDC00)) as char, s[10..]))
  }

  /** After a reversed solidus. */
  function ReadEscape(s: string): (r: Option<(char, string)>)
    ensures r.Some? ==> |r.value.1| < |s|
  {
    if s == [] then None
    else
      match s[0]
      case '"' => Some(('"', s[1..]))
      case '\\' => Some(('\\', s[1..]))
      case '/' => Some(('/', s[1..]))
      case 'b' => Some(('\U{0008}', s[1..]))
      case 'f' => Some(('\U{000C}', s[1..]))
      case 'n' => Some(('\n', s[1..]))
      case 'r' => Some(('\r', s[1..]))
      case 't' => Some(('\t', s[1..]))
      case 'u' => ReadUnicode(s[1..])
      case _ => None
  }

  /** One character of a string; control characters must be escaped. */
  function ReadChar(s: string): (r: Option<(char, string)>)
    ensures r.Some? ==> |r.value.1| < |s|
  {
    if s == [] then None
    else if s[0] == '\\' then ReadEscape(s[1..])
    else if s[0] < ' ' then None
    else Some((s[0], s[1..]))
  }

  /** The rest of a string after its opening quotation mark. */
  function ReadString(s: string): (r: Option<(string, string)>)
    ensures r.Some? ==> |r.value.1| < |s|
    decreases |s|
  {
    if s == [] then None
    else if s[0] == '"' then Some(([], s[1..]))
    else
      var c := ReadChar(s);
      if c.None? then None
      else
        var tail := ReadString(c.value.1);
        if tail.None? then None else Some(([c.value.0] + tail.value.0, tail.value.1))
  }

  /** How many digits the text starts with. */
  function DigitRun(s: string): (k: nat)
    ensures k <= |s| && forall i :: 0 <= i < k ==> IsDigit(s[i])
  {
    if s == [] || !IsDigit(s[0]) then 0 else 1 + DigitRun(s[1..])
  }

  function NatValue(s: string): nat
    requires forall i :: 0 <= i < |s| ==> IsDigit(s[i])
  {
    if s == [] then 0
    else
      assert IsDigit(s[|s| - 1]);
      NatValue(s[..|s| - 1]) * 10 + (s[|s| - 1] as int - '0' as int)
  }

  lemma {:induction false} NatTextValue(n: nat)
    ensures NatValue(NatText(n)) == n
  {
    if n < 10 {
      assert NatText(n)[..0] == [];
    } else {
      NatTextValue(n / 10);
      assert NatText(n)[..|NatText(n)| - 1] == NatText(n / 10);
    }
  }

  /** An integer: no leading zero, no fraction, no exponent. */
  function ReadInt(s: string): (r: Option<(int, string)>)
    ensures r.Some? ==> |r.value.1| < |s|
  {
    var negative := s != [] && s[0] == '-';
    var t := if negative then s[1..] else s;
    var k := DigitRun(t);
    if k == 0 || (k > 1 && t[0] == '0') then None
    else
      var m: int := NatValue(t[..k]);
      Some((if negative then -m else m, t[k..]))
  }

  function ReadLiteral(s: string, word: string, v: Json): (r: Option<(Json, string)>)
    requires word != []
    ensures r.Some? ==> |r.value.1| < |s|
  {
    if word <= s then Some((v, s[|word|..])) else None
  }

  function ReadValue(s: string): (r: Option<(Json, string)>)
    ensures r.Some? ==> |r.value.1| < |s|
    decreases |s|, 2
  {
    if s == [] then None
    else if s[0] == '"' then
      var t := ReadString(s[1..]);
      if t.None? then None else Some((Str(t.value.0), t.value.1))
    else if s[0] == '[' then
      if |s| > 1 && s[1] == ']' then Some((Arr([]), s[2..]))
      else
        var items := ReadItems(s[1..]);
        if items.None? then None else Some((Arr(items.value.0), items.value.1))
    else if s[0] == '{' then
      if |s| > 1 && s[1] == '}' then Some((Obj([]), s[2..]))
      else
        var fields := ReadFields(s[1..]);
        if fields.None? then None else Some((Obj(fields.value.0), fields.value.1))
    else if s[0] == 'n' then ReadLiteral(s, "null", Null)
    else if s[0] == 't' then ReadLiteral(s, "true", Bool(true))
    else if s[0] == 'f' then ReadLiteral(s, "false", Bool(false))
    else
      var n := ReadInt(s);
      if n.None? then None else Some((Int(n.value.0), n.value.1))
  }

  /** One or more items separated by commas, up to the closing bracket. */
  function ReadItems(s: string): (r: Option<(seq<Json>, string)>)
    ensures r.Some? ==> |r.value.1| < |s|
    decreases |s|, 3
  {
    var v := ReadValue(s);
    if v.None? || v.value.1 == [] then None
    else if v.value.1[0] == ']' then Some(([v.value.0], v.value.1[1..]))
    else if v.value.1[0] != ',' then None
    else
      var rest := ReadItems(v.value.1[1..]);
      if rest.None? then None else Some(([v.value.0] + rest.value.0, rest.value.1))
  }

  /** A member: its name, a colon, its value. */
  function ReadField(s: string): (r: Option<((string, Json), string)>)
    ensures r.Some? ==> |r.value.1| < |s|
    decreases |s|, 3
  {
    if s == [] || s[0] != '"' then None
    else
      var name := ReadString(s[1..]);
      if name.None? || name.value.1 == [] || name.value.1[0] != ':' then None
      else
        var v := ReadValue(name.value.1[1..]);
        if v.None? then None else Some(((name.value.0, v.value.0), v.value.1))
  }

  function ReadFields(s: string): (r: Option<(seq<(string, Json)>, string)>)
    ensures r.Some? ==> |r.value.1| < |s|
    decreases |s|, 4
  {
    var f := ReadField(s);
    if f.None? || f.value.1 == [] then None
    else if f.value.1[0] == '}' then Some(([f.value.0], f.value.1[1..]))
    else if f.value.1[0] != ',' then None
    else
      var rest := ReadFields(f.value.1[1..]);
      if rest.None? then None else Some(([f.value.0] + rest.value.0, rest.value.1))
  }

  /** A whole JSON text. */
  function ReadJson(s: string): Option<Json> {
    var r := ReadValue(s);
    if r.Some? && r.value.1 == [] then Some(r.value.0) else None
  }

  // ----- What is printed reads back: numbers

  /** What may follow a value: nothing, or something that cannot extend a number. */
  predicate Delimited(x: string) {
    x == [] || !IsDigit(x[0])
  }

  lemma {:induction false} RunOfDigits(p: string, x: string)
    requires Delimited(x) && forall i :: 0 <= i < |p| ==> IsDigit(p[i])
    ensures DigitRun(p + x) == |p|
  {
    if p == [] {
      assert p + x == x;
    } else {
      assert (p + x)[1..] == p[1..] + x;
      RunOfDigits(p[1..], x);
    }
  }

  lemma {:induction false} NoLeadingZero(n: nat)
    ensures NatText(n)[0] == '0' <==> n == 0
    ensures n < 10 ==> |NatText(n)| == 1
  {
    if n >= 10 {
      NoLeadingZero(n / 10);
    }
  }

  lemma IntReadsBack(n: int, x: string)
    requires Delimited(x)
    ensures ReadInt(IntText(n) + x) == Some((n, x))
    ensures (IntText(n) + x)[0] == '-' || IsDigit((IntText(n) + x)[0])
  {
    var m: nat := if n < 0 then -n else n;
    var p := NatText(m);
    NatTextValue(m);
    NoLeadingZero(m);
    RunOfDigits(p, x);
    assert (p + x)[..|p|] == p && (p + x)[|p|..] == x;
    if n < 0 {
      Assoc("-", p, x);
      ConsParts('-', p + x);
    }
  }

  // ----- Strings

  function HexQuad(v: int): seq<int>
    requires 0 <= v < 0x10000
  {
    [v / 4096, v / 256 % 16, v / 16 % 16, v % 16]
  }

  lemma HexQuadValue(v: int)
    requires 0 <= v < 0x10000
    ensures v == HexQuad(v)[0] * 4096 + HexQuad(v)[1] * 256 + HexQuad(v)[2] * 16 + HexQuad(v)[3]
  {
    assert v / 16 == v / 256 * 16 + v / 16 % 16;
    assert v / 256 == v / 4096 * 16 + v / 256 % 16;
  }

  lemma UnicodeEscapeDigits(c: char)
    requires c as int < 0x10000
    ensures var p := UnicodeEscape(c);
            && IsHexDigit(p[2]) && IsHexDigit(p[3]) && IsHexDigit(p[4]) && IsHexDigit(p[5])
            && HexQuad(c as int) == [HexValue(p[2]), HexValue(p[3]), HexValue(p[4]), HexValue(p[5])]
  {
  }

  lemma UnicodeReadsBack(c: char, x: string)
    requires c as int < 0x10000
    ensures ReadChar(UnicodeEscape(c) + x) == Some((c, x))
  {
    var p := UnicodeEscape(c);
    var s := p + x;
    UnicodeEscapeDigits(c);
    HexQuadValue(c as int);
    assert s[0] == '\\' && s[1] == 'u' && s[1..][1..] == s[2..] && s[2..][4..] == s[6..] == x;
    assert s[2] == p[2] && s[3] == p[3] && s[4] == p[4] && s[5] == p[5];
  }

  lemma CharReadsBack(go: bool, c: char, x: string)
    ensures ReadChar(EscapeChar(go, c) + x) == Some((c, x))
    ensures (EscapeChar(go, c) + x)[0] != '"'
  {
    hide ReadUnicode, UnicodeEscape;
    var p := EscapeChar(go, c);
    if |p| == 6 {
      UnicodeReadsBack(c, x);
    } else if |p| == 2 {
      assert (p + x)[1..][0] == p[1] && (p + x)[1..][1..] == x;
    } else {
      assert (p + x)[1..] == x;
    }
  }

  lemma {:induction false} StringReadsBack(go: bool, s: string, x: string)
    ensures ReadString(Escape(go, s) + ("\"" + x)) == Some((s, x))
  {
    if s == [] {
      assert Escape(go, s) + ("\"" + x) == "\"" + x;
      ConsParts('"', x);
    } else {
      var p, rest := EscapeChar(go, s[0]), Escape(go, s[1..]) + ("\"" + x);
      Assoc(p, Escape(go, s[1..]), "\"" + x);
      CharReadsBack(go, s[0], rest);
      StringReadsBack(go, s[1..], x);
      HeadTail(s);
    }
  }

  lemma QuoteReadsBack(go: bool, s: string, x: string)
    ensures var t := Quote(go, s) + x; t != [] && t[0] == '"' && ReadString(t[1..]) == Some((s, x))
  {
    hide ReadString, Escape;
    StringReadsBack(go, s, x);
    Assoc("\"", Escape(go, s) + "\"", x);
    Assoc(Escape(go, s), "\"", x);
    ConsParts('"', Escape(go, s) + ("\"" + x));
  }

  // ----- Values

  lemma LiteralReadsBack(word: string, v: Json, x: string)
    requires word != []
    ensures ReadLiteral(word + x, word, v) == Some((v, x))
  {
    assert (word + x)[|word|..] == x;
  }

  lemma ScalarReadsBack(go: bool, v: Json, x: string)
    requires Delimited(x) && !v.Arr? && !v.Obj?
    ensures ReadValue(Print(go, v) + x) == Some((v, x))
  {
    hide ReadLiteral, ReadInt, ReadString, ReadItems, ReadFields, Quote, IntText;
    match v
    case Null => LiteralReadsBack("null", v, x);
    case Bool(b) => LiteralReadsBack(if b then "true" else "false", v, x);
    case Int(n) => IntReadsBack(n, x);
    case Str(s) => QuoteReadsBack(go, s, x);
  }

  /** No printed value starts with a closing bracket. */
  lemma PrintStarts(go: bool, v: Json)
    ensures Print(go, v) != [] && Print(go, v)[0] != ']' && Print(go, v)[0] != '}'
  {
    if v.Int? {
      NoLeadingZero(if v.n < 0 then -v.n else v.n);
    }
  }

  /** The printed value, followed by anything that cannot extend a number, reads back as the value and that rest. */
  lemma {:induction false} ReadsBack(go: bool, v: Json, x: string)
    requires Delimited(x)
    ensures ReadValue(Print(go, v) + x) == Some((v, x))
    decreases v, 1
  {
    match v
    case Arr(items) => ArrayReadsBack(go, v, x);
    case Obj(fields) => ObjectReadsBack(go, v, x);
    case _ => ScalarReadsBack(go, v, x);
  }

  /** Bracketed text, regrouped. */
  lemma Opened(c: char, p: string, r: string, x: string)
    ensures [c] + (p + r) + x == [c] + (p + (r + x))
    ensures ([c] + (p + r) + x)[0] == c && ([c] + (p + r) + x)[1..] == p + (r + x)
  {
    Assoc([c], p + r, x);
    Assoc(p, r, x);
    ConsParts(c, p + (r + x));
  }

  lemma {:induction false} ArrayReadsBack(go: bool, v: Json, x: string)
    requires v.Arr?
    ensures ReadValue(Print(go, v) + x) == Some((v, x))
    decreases v, 0
  {
    hide ReadItems, PrintItems;
    var items := v.items;
    if items == [] {
      assert ("[]" + x)[2..] == x;
    } else {
      Opened('[', Print(go, items[0]), PrintItems(go, items[1..]), x);
      PrintStarts(go, items[0]);
      ItemsReadBack(go, items, x);
      FirstOf(Print(go, items[0]), PrintItems(go, items[1..]) + x);
    }
  }

  lemma FirstOf(p: string, x: string)
    requires p != []
    ensures (p + x)[0] == p[0]
  {
  }

  lemma {:induction false} ItemsReadBack(go: bool, items: seq<Json>, x: string)
    requires items != []
    ensures ReadItems(Print(go, items[0]) + (PrintItems(go, items[1..]) + x)) == Some((items, x))
    decreases items, 0
  {
    hide Print, ReadValue;
    var rest := items[1..];
    HeadTail(items);
    if rest == [] {
      ConsParts(']', x);
      assert items == [items[0]];
      ReadsBack(go, items[0], "]" + x);
    } else {
      Opened(',', Print(go, rest[0]), PrintItems(go, rest[1..]), x);
      ReadsBack(go, items[0], PrintItems(go, rest) + x);
      ItemsReadBack(go, rest, x);
    }
  }

  lemma {:induction false} FieldReadsBack(go: bool, field: (string, Json), x: string)
    requires Delimited(x)
    ensures ReadField(PrintField(go, field) + x) == Some((field, x))
    ensures (PrintField(go, field) + x)[0] == '"'
    decreases field, 0
  {
    hide Print, ReadValue, Quote, ReadString;
    var p := Print(go, field.1);
    Assoc(Quote(go, field.0), ":" + p, x);
    Assoc(":", p, x);
    QuoteReadsBack(go, field.0, ":" + (p + x));
    ConsParts(':', p + x);
    ReadsBack(go, field.1, x);
  }

  lemma {:induction false} ObjectReadsBack(go: bool, v: Json, x: string)
    requires v.Obj?
    ensures ReadValue(Print(go, v) + x) == Some((v, x))
    decreases v, 0
  {
    hide ReadFields, PrintFields, PrintField;
    var fields := v.fields;
    if fields == [] {
      assert ("{}" + x)[2..] == x;
    } else {
      Opened('{', PrintField(go, fields[0]), PrintFields(go, fields[1..]), x);
      FieldReadsBack(go, fields[0], PrintFields(go, fields[1..]) + x);
      FieldsReadBack(go, fields, x);
    }
  }

  lemma {:induction false} FieldsReadBack(go: bool, fields: seq<(string, Json)>, x: string)
    requires fields != []
    ensures ReadFields(PrintField(go, fields[0]) + (PrintFields(go, fields[1..]) + x)) == Some((fields, x))
    decreases fields, 1
  {
    hide PrintField, ReadField;
    var rest := fields[1..];
    HeadTail(fields);
    if rest == [] {
      ConsParts('}', x);
      assert fields == [fields[0]];
      FieldReadsBack(go, fields[0], "}" + x);
    } else {
      Opened(',', PrintField(go, rest[0]), PrintFields(go, rest[1..]), x);
      FieldReadsBack(go, fields[0], PrintFields(go, rest) + x);
      FieldsReadBack(go, rest, x);
    }
  }

  // ----- The text determines the value

  /** Printed text is a JSON text of its value. */
  lemma PrintedIsJson(go: bool, v: Json)
    ensures ReadJson(Print(go, v)) == Some(v)
  {
    hide ReadValue, Print;
    assert Print(go, v) + [] == Print(go, v);
    ReadsBack(go, v, []);
  }

  /** No printed value can be read as a different value followed by something else. */
  lemma PrintUnambiguous(go: bool, a: Json, b: Json, x: string, y: string)
    requires Delimited(x) && Delimited(y)
    requires Print(go, a) + x == Print(go, b) + y
    ensures a == b && x == y
  {
    hide ReadValue, Print;
    ReadsBack(go, a, x);
    ReadsBack(go, b, y);
  }

  /** Equal text, equal value. */
  lemma PrintInjective(go: bool, a: Json, b: Json)
    requires Print(go, a) == Print(go, b)
    ensures a == b
  {
    PrintedIsJson(go, a);
    PrintedIsJson(go, b);
  }

  /** The value whose UTF-8 text the bytes are. */
  function ReadBytes(data: Bytes): Option<Json> {
    var text := DecodeUtf8(data);
    if text.None? then None else ReadJson(text.value)
  }

  /** The signing bytes of a document are a JSON text of it. */
  lemma BytesAreJson(v: Json)
    ensures ReadBytes(Utf8Json(v)) == Some(v)
  {
    hide Print, ReadJson, DecodeUtf8, Utf8;
    Utf8RoundTrip(Print(false, v));
    PrintedIsJson(false, v);
  }

  /** Equal signing bytes, equal value. */
  lemma Utf8JsonInjective(a: Json, b: Json)
    requires Utf8Json(a) == Utf8Json(b)
    ensures a == b
  {
    BytesAreJson(a);
    BytesAreJson(b);
  }

  // ----- Nothing is escaped without need

  /** Only the quotation mark, the reversed solidus, control characters and, for Go, five more are escaped. */
  lemma EscapedOnlyWhenNeeded(go: bool, c: char)
    ensures EscapeChar(go, c) == [c] <==>
            && c != '"' && c != '\\' && c >= ' '
            && (go ==> c != '&' && c != '<' && c != '>' && c != '\U{2028}' && c != '\U{2029}')
    ensures |EscapeChar(go, c)| == 2 <==> c in "\"\\\n\r\t\U{000C}\U{0008}"
    ensures forall x | x in EscapeChar(go, c) :: x != c ==> !('A' <= x <= 'Z')
  {
  }

  /** A number has a minus sign exactly when it is negative: readers take `-0` for zero, but it is not written. */
  lemma MinusExactly(n: int)
    ensures IntText(n) != [] && (IntText(n)[0] == '-' <==> n < 0)
  {
  }
}
