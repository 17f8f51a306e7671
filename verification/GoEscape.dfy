/**
  `go_json_escape`: five chained `str.replace` calls on the compact JSON text.
  They amount to one simultaneous character map, leave the JSON structure alone, and turn the plain
  printer into the HTML-safe one.
 */
module GoEscape {
  import opened Basics
  import opened Json
  import opened JsonReader

  /** `text.replace(c, sub)` for a one-character pattern. */
  function Replace(text: string, c: char, sub: string): string {
    if text == [] then []
    else (if text[0] == c then sub else [text[0]]) + Replace(text[1..], c, sub)
  }

  function GoJsonEscape(text: string): string {
    Replace(Replace(Replace(Replace(Replace(text, '&', "\\u0026"), '<', "\\u003c"), '>', "\\u003e"),
                    '\U{2028}', "\\u2028"), '\U{2029}', "\\u2029")
  }

  function GoChar(c: char): string {
    if HtmlUnsafe(c) then UnicodeEscape(c) else [c]
  }

  /** All five replacements at once. */
  function GoMap(text: string): string {
    if text == [] then [] else GoChar(text[0]) + GoMap(text[1..])
  }

  lemma {:induction false} ReplaceConcat(a: string, b: string, c: char, sub: string)
    ensures Replace(a + b, c, sub) == Replace(a, c, sub) + Replace(b, c, sub)
  {
    if a == [] {
      assert a + b == b;
    } else {
      ReplaceConcat(a[1..], b, c, sub);
      assert (a + b)[1..] == a[1..] + b;
      Assoc(if a[0] == c then sub else [a[0]], Replace(a[1..], c, sub), Replace(b, c, sub));
    }
  }

  lemma {:induction false} ReplaceAbsent(text: string, c: char, sub: string)
    requires c !in text
    ensures Replace(text, c, sub) == text
  {
    if text != [] {
      ReplaceAbsent(text[1..], c, sub);
      HeadTail(text);
    }
  }

  lemma GoEscapeConcat(a: string, b: string)
    ensures GoJsonEscape(a + b) == GoJsonEscape(a) + GoJsonEscape(b)
  {
    hide Replace;
    var a1, b1 := Replace(a, '&', "\\u0026"), Replace(b, '&', "\\u0026");
    ReplaceConcat(a, b, '&', "\\u0026");
    var a2, b2 := Replace(a1, '<', "\\u003c"), Replace(b1, '<', "\\u003c");
    ReplaceConcat(a1, b1, '<', "\\u003c");
    var a3, b3 := Replace(a2, '>', "\\u003e"), Replace(b2, '>', "\\u003e");
    ReplaceConcat(a2, b2, '>', "\\u003e");
    var a4, b4 := Replace(a3, '\U{2028}', "\\u2028"), Replace(b3, '\U{2028}', "\\u2028");
    ReplaceConcat(a3, b3, '\U{2028}', "\\u2028");
    ReplaceConcat(a4, b4, '\U{2029}', "\\u2029");
  }

  /** Text without any of the five characters passes through the chain unchanged. */
  lemma GoEscapeSafe(text: string)
    requires forall i :: 0 <= i < |text| ==> !HtmlUnsafe(text[i])
    ensures GoJsonEscape(text) == text
  {
    hide Replace;
    ReplaceAbsent(text, '&', "\\u0026");
    ReplaceAbsent(text, '<', "\\u003c");
    ReplaceAbsent(text, '>', "\\u003e");
    ReplaceAbsent(text, '\U{2028}', "\\u2028");
    ReplaceAbsent(text, '\U{2029}', "\\u2029");
  }

  lemma ReplaceOne(d: char, c: char, sub: string)
    ensures Replace([d], c, sub) == if d == c then sub else [d]
  {
    assert [d][1..] == [];
  }

  /** A replacement text contains none of the characters replaced later. */
  lemma GoEscapeOne(c: char)
    ensures GoJsonEscape([c]) == GoChar(c)
  {
    hide Replace, UnicodeEscape;
    ReplaceOne(c, '&', "\\u0026");
    ReplaceOne(c, '<', "\\u003c");
    ReplaceOne(c, '>', "\\u003e");
    ReplaceOne(c, '\U{2028}', "\\u2028");
    ReplaceOne(c, '\U{2029}', "\\u2029");
    UnsafeEscapes();
    if c == '&' {
      Untouched("\\u0026");
    } else if c == '<' {
      Untouched("\\u003c");
    } else if c == '>' {
      Untouched("\\u003e");
    } else if c == '\U{2028}' {
      Untouched("\\u2028");
    }
  }

  lemma UnsafeEscapes()
    ensures UnicodeEscape('&') == "\\u0026" && UnicodeEscape('<') == "\\u003c" && UnicodeEscape('>') == "\\u003e"
    ensures UnicodeEscape('\U{2028}') == "\\u2028" && UnicodeEscape('\U{2029}') == "\\u2029"
  {
  }

  lemma Untouched(sub: string)
    requires forall i :: 0 <= i < |sub| ==> sub[i] < '\U{0080}' && sub[i] != '&' && sub[i] != '<' && sub[i] != '>'
    ensures Replace(sub, '<', "\\u003c") == sub
    ensures Replace(sub, '>', "\\u003e") == sub
    ensures Replace(sub, '\U{2028}', "\\u2028") == sub
    ensures Replace(sub, '\U{2029}', "\\u2029") == sub
  {
    hide Replace;
    ReplaceAbsent(sub, '<', "\\u003c");
    ReplaceAbsent(sub, '>', "\\u003e");
    ReplaceAbsent(sub, '\U{2028}', "\\u2028");
    ReplaceAbsent(sub, '\U{2029}', "\\u2029");
  }

  /** The five chained replacements equal one simultaneous character map. */
  lemma {:induction false} GoEscapeIsCharMap(text: string)
    ensures GoJsonEscape(text) == GoMap(text)
  {
    if text == [] {
      GoEscapeSafe(text);
    } else {
      hide GoJsonEscape;
      HeadTail(text);
      GoEscapeConcat([text[0]], text[1..]);
      GoEscapeOne(text[0]);
      GoEscapeIsCharMap(text[1..]);
    }
  }

  // ----- The plain printer becomes the HTML-safe printer

  lemma GoEscapeChar(c: char)
    ensures GoJsonEscape(EscapeChar(false, c)) == EscapeChar(true, c)
  {
    hide GoJsonEscape;
    if EscapeChar(false, c) == [c] {
      GoEscapeOne(c);
    } else {
      GoEscapeSafe(EscapeChar(false, c));
    }
  }

  lemma {:induction false} GoEscapeString(s: string)
    ensures GoJsonEscape(Escape(false, s)) == Escape(true, s)
  {
    if s == [] {
      GoEscapeSafe([]);
    } else {
      hide GoJsonEscape, EscapeChar;
      GoEscapeConcat(EscapeChar(false, s[0]), Escape(false, s[1..]));
      GoEscapeChar(s[0]);
      GoEscapeString(s[1..]);
    }
  }

  lemma GoEscapeQuote(s: string)
    ensures GoJsonEscape(Quote(false, s)) == Quote(true, s)
  {
    hide GoJsonEscape, Escape;
    GoEscapeConcat("\"", Escape(false, s) + "\"");
    GoEscapeConcat(Escape(false, s), "\"");
    GoEscapeSafe("\"");
    GoEscapeString(s);
  }

  lemma GoEscapeInt(n: int)
    ensures GoJsonEscape(IntText(n)) == IntText(n)
  {
    GoEscapeSafe(IntText(n));
  }

  /** Structural characters are never touched: escaping a printed value prints it HTML-safe. */
  lemma {:induction false} GoEscapePrinted(v: Json)
    ensures GoJsonEscape(Print(false, v)) == Print(true, v)
    decreases v, 1
  {
    hide GoJsonEscape, Quote, IntText;
    match v
    case Null => GoEscapeSafe("null");
    case Bool(_) => GoEscapeSafe(Print(false, v));
    case Int(n) => GoEscapeInt(n);
    case Str(s) => GoEscapeQuote(s);
    case Arr(items) =>
      if items == [] {
        GoEscapeSafe("[]");
      } else {
        GoEscapeSafe("[");
        GoEscapeConcat("[", Print(false, items[0]) + PrintItems(false, items[1..]));
        GoEscapeConcat(Print(false, items[0]), PrintItems(false, items[1..]));
        GoEscapePrinted(items[0]);
        GoEscapeItems(items[1..]);
      }
    case Obj(fields) =>
      if fields == [] {
        GoEscapeSafe("{}");
      } else {
        GoEscapeSafe("{");
        GoEscapeConcat("{", PrintField(false, fields[0]) + PrintFields(false, fields[1..]));
        GoEscapeConcat(PrintField(false, fields[0]), PrintFields(false, fields[1..]));
        GoEscapeField(fields[0]);
        GoEscapeFields(fields[1..]);
      }
  }

  lemma {:induction false} GoEscapeItems(items: seq<Json>)
    ensures GoJsonEscape(PrintItems(false, items)) == PrintItems(true, items)
    decreases items, 0
  {
    hide GoJsonEscape, Print;
    if items == [] {
      GoEscapeSafe("]");
    } else {
      GoEscapeSafe(",");
      GoEscapeConcat(",", Print(false, items[0]) + PrintItems(false, items[1..]));
      GoEscapeConcat(Print(false, items[0]), PrintItems(false, items[1..]));
      GoEscapePrinted(items[0]);
      GoEscapeItems(items[1..]);
    }
  }

  lemma {:induction false} GoEscapeField(field: (string, Json))
    ensures GoJsonEscape(PrintField(false, field)) == PrintField(true, field)
    decreases field, 0
  {
    hide GoJsonEscape, Print, Quote;
    GoEscapeSafe(":");
    GoEscapeConcat(Quote(false, field.0), ":" + Print(false, field.1));
    GoEscapeConcat(":", Print(false, field.1));
    GoEscapeQuote(field.0);
    GoEscapePrinted(field.1);
  }

  lemma {:induction false} GoEscapeFields(fields: seq<(string, Json)>)
    ensures GoJsonEscape(PrintFields(false, fields)) == PrintFields(true, fields)
    decreases fields, 0
  {
    hide GoJsonEscape, PrintField;
    if fields == [] {
      GoEscapeSafe("}");
    } else {
      GoEscapeSafe(",");
      GoEscapeConcat(",", PrintField(false, fields[0]) + PrintFields(false, fields[1..]));
      GoEscapeConcat(PrintField(false, fields[0]), PrintFields(false, fields[1..]));
      GoEscapeField(fields[0]);
      GoEscapeFields(fields[1..]);
    }
  }

  /** Escaped text still determines the value. */
  lemma GoTextInjective(a: Json, b: Json)
    requires GoJsonEscape(Print(false, a)) == GoJsonEscape(Print(false, b))
    ensures a == b
  {
    GoEscapePrinted(a);
    GoEscapePrinted(b);
    PrintInjective(true, a, b);
  }

  /** The escaped text is still a JSON text of the value. */
  lemma GoTextIsJson(v: Json)
    ensures ReadJson(GoJsonEscape(Print(false, v))) == Some(v)
  {
    hide ReadJson, GoJsonEscape, Print;
    GoEscapePrinted(v);
    PrintedIsJson(true, v);
  }

  /** The five characters never appear in escaped text, and no other character changes. */
  lemma {:induction false} GoEscapesExactly(text: string)
    ensures forall i | 0 <= i < |GoJsonEscape(text)| :: GoJsonEscape(text)[i] !in "&<>\U{2028}\U{2029}"
    ensures (forall i | 0 <= i < |text| :: text[i] !in "&<>\U{2028}\U{2029}") ==> GoJsonEscape(text) == text
  {
    hide GoJsonEscape;
    GoEscapeIsCharMap(text);
    MapIsSafe(text);
    if forall i | 0 <= i < |text| :: text[i] !in "&<>\U{2028}\U{2029}" {
      GoEscapeSafe(text);
    }
  }

  lemma {:induction false} MapIsSafe(text: string)
    ensures forall i | 0 <= i < |GoMap(text)| :: GoMap(text)[i] !in "&<>\U{2028}\U{2029}"
  {
    if text != [] {
      MapIsSafe(text[1..]);
      CharIsSafe(text[0]);
    }
  }

  lemma CharIsSafe(c: char)
    ensures forall i | 0 <= i < |GoChar(c)| :: GoChar(c)[i] !in "&<>\U{2028}\U{2029}"
  {
  }
}
