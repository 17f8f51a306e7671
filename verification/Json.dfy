/**
  `json.dumps(value, separators=(",", ":"), ensure_ascii=False)`, with and without the Go HTML-safe escapes.
  Numbers are integers; objects keep their key order, as Python dicts do.
 */
module Json {
  import opened Basics
  import opened Text

  datatype Json =
    | Null
    | Bool(b: bool)
    | Int(n: int)
    | Str(s: string)
    | Arr(items: seq<Json>)
    | Obj(fields: seq<(string, Json)>)

  function Strings(s: seq<string>): Json {
    Arr(seq(|s|, i requires 0 <= i < |s| => Str(s[i])))
  }

  lemma StringsInjective(a: seq<string>, b: seq<string>)
    requires Strings(a) == Strings(b)
    ensures a == b
  {
    assert |a| == |Strings(a).items| == |b|;
    forall i | 0 <= i < |a| ensures a[i] == b[i] {
      assert Strings(a).items[i] == Strings(b).items[i];
    }
  }

  // ----- Printing

  function Digit(d: int): (c: char)
    requires 0 <= d < 10
    ensures IsDigit(c)
  {
    ('0' as int + d) as char
  }

  predicate IsDigit(c: char) {
    '0' <= c <= '9'
  }

  function NatText(n: nat): (r: string)
    ensures r != [] && forall i :: 0 <= i < |r| ==> IsDigit(r[i])
  {
    if n < 10 then [Digit(n)] else NatText(n / 10) + [Digit(n % 10)]
  }

  function IntText(n: int): string {
    if n < 0 then "-" + NatText(-n) else NatText(n)
  }

  /** The characters the Go pass escapes on top of JSON. */
  predicate HtmlUnsafe(c: char) {
    c == '&' || c == '<' || c == '>' || c == '\U{2028}' || c == '\U{2029}'
  }

  function UnicodeEscape(c: char): (r: string)
    requires c as int < 0x10000
    ensures |r| == 6 && r[0] == '\\' && r[1] == 'u'
  {
    var v := c as int;
    ['\\', 'u', HexDigit(v / 4096), HexDigit(v / 256 % 16), HexDigit(v / 16 % 16), HexDigit(v % 16)]
  }

  /** One character inside a string literal; `go` adds the HTML-safe escapes. */
  function EscapeChar(go: bool, c: char): (r: string)
    ensures r != []
  {
    if c == '"' then "\\\""
    else if c == '\\' then "\\\\"
    else if c == '\n' then "\\n"
    else if c == '\r' then "\\r"
    else if c == '\t' then "\\t"
    else if c == '\U{000C}' then "\\f"
    else if c == '\U{0008}' then "\\b"
    else if c < ' ' || (go && HtmlUnsafe(c)) then UnicodeEscape(c)
    else [c]
  }

  function Escape(go: bool, s: string): string {
    if s == [] then [] else EscapeChar(go, s[0]) + Escape(go, s[1..])
  }

  function Quote(go: bool, s: string): string {
    "\"" + (Escape(go, s) + "\"")
  }

  function Print(go: bool, v: Json): string
    decreases v
  {
    match v
    case Null => "null"
    case Bool(b) => if b then "true" else "false"
    case Int(n) => IntText(n)
    case Str(s) => Quote(go, s)
    case Arr(items) =>
      if items == [] then "[]"
      else "[" + (Print(go, items[0]) + PrintItems(go, items[1..]))
    case Obj(fields) =>
      if fields == [] then "{}"
      else "{" + (PrintField(go, fields[0]) + PrintFields(go, fields[1..]))
  }

  /** The rest of an array: each further item after a comma, then the bracket. */
  function PrintItems(go: bool, items: seq<Json>): (r: string)
    ensures r != [] && (r[0] == ',' || r[0] == ']')
    decreases items
  {
    if items == [] then "]" else "," + (Print(go, items[0]) + PrintItems(go, items[1..]))
  }

  function PrintField(go: bool, field: (string, Json)): string
    decreases field
  {
    Quote(go, field.0) + (":" + Print(go, field.1))
  }

  function PrintFields(go: bool, fields: seq<(string, Json)>): (r: string)
    ensures r != [] && (r[0] == ',' || r[0] == '}')
    decreases fields
  {
    if fields == [] then "}" else "," + (PrintField(go, fields[0]) + PrintFields(go, fields[1..]))
  }

  /** The signing bytes of a JSON document. */
  function Utf8Json(v: Json): Bytes {
    Utf8(Print(false, v))
  }
}
