/**
  The regular expressions of the code as data, with the language each piece-by-piece pattern denotes, and the proof
  that the character tests used everywhere accept exactly those languages.
 */
module Patterns {
  import opened Basics
  import opened Text
  import Mandate
  import Receipt

  /** A character class, given by its ranges, repeated between `least` and `most` times. */
  datatype Piece = Piece(ranges: seq<(char, char)>, least: nat, most: nat)

  predicate InClass(ranges: seq<(char, char)>, c: char) {
    exists i | 0 <= i < |ranges| :: ranges[i].0 <= c <= ranges[i].1
  }

  predicate AllIn(ranges: seq<(char, char)>, s: string) {
    forall i | 0 <= i < |s| :: InClass(ranges, s[i])
  }

  /** The whole text is made of consecutive parts, one for each piece. */
  predicate FullMatch(pattern: seq<Piece>, s: string)
    decreases |pattern|
  {
    if pattern == [] then s == []
    else
      exists k | 0 <= k <= |s| ::
        && pattern[0].least <= k <= pattern[0].most && AllIn(pattern[0].ranges, s[..k])
        && FullMatch(pattern[1..], s[k..])
  }

  const HEX := [('0', '9'), ('a', 'f')]
  const ALNUM := [('a', 'z'), ('0', '9')]
  const DASH := [('-', '-')]

  /** `[0-9a-f]{64}` */
  const HEX64 := [Piece(HEX, 64, 64)]

  /** `[0-9a-f]{8}-[0-9a-f]{4}-[0-9a-f]{4}-[0-9a-f]{4}-[0-9a-f]{12}` */
  const UUID := [Piece(HEX, 8, 8), Piece(DASH, 1, 1), Piece(HEX, 4, 4), Piece(DASH, 1, 1), Piece(HEX, 4, 4),
                 Piece(DASH, 1, 1), Piece(HEX, 4, 4), Piece(DASH, 1, 1), Piece(HEX, 12, 12)]

  /** `[a-z0-9][a-z0-9._:/-]{0,127}` */
  const SCOPE_TOKEN := [Piece(ALNUM, 1, 1),
                        Piece(ALNUM + [('.', '.'), ('_', '_'), (':', ':'), ('/', '/'), ('-', '-')], 0, 127)]

  /** `[a-z0-9][a-z0-9._-]*` within the limit of 256 characters. */
  const TENANT_ID := [Piece(ALNUM, 1, 1), Piece(ALNUM + [('.', '.'), ('_', '_'), ('-', '-')], 0, 255)]

  /** `[a-z0-9_]{3,16}` */
  const MANDATE_CURRENCY := [Piece(ALNUM + [('_', '_')], 3, 16)]

  /** `[a-z]{3}` */
  const RECEIPT_CURRENCY := [Piece([('a', 'z')], 3, 3)]

  // ----- Matching fixed and last pieces

  lemma MatchNone(s: string)
    ensures FullMatch([], s) <==> s == []
  {
  }

  /** A piece of fixed length takes exactly that many characters. */
  lemma MatchFixed(pattern: seq<Piece>, n: nat, s: string)
    requires pattern != [] && pattern[0].least == n == pattern[0].most
    ensures FullMatch(pattern, s) <==>
              |s| >= n && AllIn(pattern[0].ranges, s[..n]) && FullMatch(pattern[1..], s[n..])
  {
    hide AllIn;
  }

  lemma MatchLast(piece: Piece, s: string)
    ensures FullMatch([piece], s) <==> piece.least <= |s| <= piece.most && AllIn(piece.ranges, s)
  {
    hide AllIn;
    assert [piece][1..] == [];
    forall k | 0 <= k <= |s| ensures FullMatch([], s[k..]) <==> k == |s| {
      MatchNone(s[k..]);
    }
    assert s[..|s|] == s;
  }

  lemma HexClass(c: char)
    ensures InClass(HEX, c) <==> IsHexDigit(c)
  {
    assert HEX[0] == ('0', '9') && HEX[1] == ('a', 'f');
  }

  lemma AlnumClass(c: char)
    ensures InClass(ALNUM, c) <==> IsLowerAlnum(c)
  {
    assert ALNUM[0] == ('a', 'z') && ALNUM[1] == ('0', '9');
  }

  lemma DashClass(c: char)
    ensures InClass(DASH, c) <==> c == '-'
  {
    assert DASH[0] == ('-', '-');
  }

  lemma JoinedClass(a: seq<(char, char)>, b: seq<(char, char)>, c: char)
    ensures InClass(a + b, c) <==> InClass(a, c) || InClass(b, c)
  {
    if InClass(a, c) {
      var i :| 0 <= i < |a| && a[i].0 <= c <= a[i].1;
      assert (a + b)[i] == a[i];
    }
    if InClass(b, c) {
      var i :| 0 <= i < |b| && b[i].0 <= c <= b[i].1;
      assert (a + b)[|a| + i] == b[i];
    }
  }

  // ----- The character tests accept the patterns

  lemma Hex64Exactly(s: string)
    ensures IsHex64(s) <==> FullMatch(HEX64, s)
  {
    MatchLast(HEX64[0], s);
    forall c ensures InClass(HEX, c) <==> IsHexDigit(c) {
      HexClass(c);
    }
  }

  lemma ScopeTokenExactly(s: string)
    ensures IsScopeToken(s) <==> FullMatch(SCOPE_TOKEN, s)
  {
    var marks := [('.', '.'), ('_', '_'), (':', ':'), ('/', '/'), ('-', '-')];
    forall c ensures InClass(ALNUM + marks, c) <==> IsLowerAlnum(c) || c in "._:/-" {
      AlnumClass(c);
      JoinedClass(ALNUM, marks, c);
      ScopeMarks(c);
    }
    HeadThenTail(ALNUM + marks, 127, s);
    hide IsLowerAlnum, InClass;
  }

  lemma ScopeMarks(c: char)
    ensures InClass([('.', '.'), ('_', '_'), (':', ':'), ('/', '/'), ('-', '-')], c) <==> c in "._:/-"
  {
    var marks := [('.', '.'), ('_', '_'), (':', ':'), ('/', '/'), ('-', '-')];
    assert marks[0].0 == '.' && marks[1].0 == '_' && marks[2].0 == ':' && marks[3].0 == '/' && marks[4].0 == '-';
    assert forall i | 0 <= i < 5 :: marks[i].0 == marks[i].1;
  }

  lemma TenantMarks(c: char)
    ensures InClass([('.', '.'), ('_', '_'), ('-', '-')], c) <==> c in "._-"
  {
    var marks := [('.', '.'), ('_', '_'), ('-', '-')];
    assert marks[0].0 == '.' && marks[1].0 == '_' && marks[2].0 == '-';
    assert forall i | 0 <= i < 3 :: marks[i].0 == marks[i].1;
  }

  /** A letter or digit, then up to `most` characters of a class. */
  lemma HeadThenTail(tail: seq<(char, char)>, most: nat, s: string)
    ensures FullMatch([Piece(ALNUM, 1, 1), Piece(tail, 0, most)], s) <==>
            && 1 <= |s| <= most + 1 && IsLowerAlnum(s[0]) && forall i | 1 <= i < |s| :: InClass(tail, s[i])
  {
    hide InClass, IsLowerAlnum;
    var pattern := [Piece(ALNUM, 1, 1), Piece(tail, 0, most)];
    MatchFixed(pattern, 1, s);
    if s != [] {
      assert pattern[1..] == [pattern[1]];
      MatchLast(pattern[1], s[1..]);
      AlnumClass(s[0]);
      assert AllIn(ALNUM, s[..1]) <==> InClass(ALNUM, s[0]);
      TailAllIn(tail, s);
    }
  }

  lemma TailAllIn(ranges: seq<(char, char)>, s: string)
    requires s != []
    ensures AllIn(ranges, s[1..]) <==> forall i | 1 <= i < |s| :: InClass(ranges, s[i])
  {
    hide InClass;
    if AllIn(ranges, s[1..]) {
      forall i | 1 <= i < |s| ensures InClass(ranges, s[i]) {
        assert s[1..][i - 1] == s[i];
      }
    }
  }

  lemma TenantIdExactly(s: string)
    ensures Mandate.IsTenantId(s) <==> FullMatch(TENANT_ID, s)
  {
    var marks := [('.', '.'), ('_', '_'), ('-', '-')];
    forall c ensures InClass(ALNUM + marks, c) <==> IsLowerAlnum(c) || c in "._-" {
      AlnumClass(c);
      JoinedClass(ALNUM, marks, c);
      TenantMarks(c);
    }
    HeadThenTail(ALNUM + marks, 255, s);
    hide IsLowerAlnum, InClass;
  }

  lemma CurrenciesExactly(s: string)
    ensures Mandate.IsCurrency(s) <==> FullMatch(MANDATE_CURRENCY, s)
    ensures Receipt.IsCurrency(s) <==> FullMatch(RECEIPT_CURRENCY, s)
  {
    forall c ensures InClass(ALNUM + [('_', '_')], c) <==> IsLowerAlnum(c) || c == '_' {
      AlnumClass(c);
      JoinedClass(ALNUM, [('_', '_')], c);
      assert [('_', '_')][0] == ('_', '_');
    }
    forall c ensures InClass([('a', 'z')], c) <==> 'a' <= c <= 'z' {
      assert [('a', 'z')][0] == ('a', 'z');
    }
    MatchLast(MANDATE_CURRENCY[0], s);
    MatchLast(RECEIPT_CURRENCY[0], s);
    hide IsLowerAlnum, InClass;
  }

  // ----- UUIDs, from the back

  predicate Digits(s: string, from: nat, to: nat) {
    from <= to <= |s| && forall i | from <= i < to :: IsHexDigit(s[i])
  }

  /** The rest of the text from position `at` matches: a dash, then `n` digits, then the rest of the pattern. */
  lemma {:induction false} DashAndDigits(pattern: seq<Piece>, s: string, at: nat, n: nat)
    requires |pattern| >= 2 && pattern[0] == Piece(DASH, 1, 1) && pattern[1] == Piece(HEX, n, n) && at <= |s|
    ensures FullMatch(pattern, s[at..]) <==>
            && at + 1 + n <= |s| && s[at] == '-' && Digits(s, at + 1, at + 1 + n)
            && FullMatch(pattern[2..], s[at + 1 + n..])
  {
    MatchFixed(pattern, 1, s[at..]);
    if at < |s| {
      hide FullMatch;
      DashClass(s[at]);
      assert s[at..][..1] == [s[at]] && s[at..][1..] == s[at + 1..];
      assert AllIn(DASH, [s[at]]) <==> InClass(DASH, s[at]) by { assert [s[at]][0] == s[at]; }
      assert pattern[1..][1..] == pattern[2..];
      DigitsFirst(pattern[1..], s, at + 1, n);
    }
  }

  lemma DigitsFirst(pattern: seq<Piece>, s: string, at: nat, n: nat)
    requires pattern != [] && pattern[0] == Piece(HEX, n, n) && at <= |s|
    ensures FullMatch(pattern, s[at..]) <==>
            at + n <= |s| && Digits(s, at, at + n) && FullMatch(pattern[1..], s[at + n..])
  {
    MatchFixed(pattern, n, s[at..]);
    if at + n <= |s| {
      hide FullMatch;
      assert s[at..][..n] == s[at..at + n] && s[at..][n..] == s[at + n..];
      DigitsAllIn(s, at, n);
    }
  }

  lemma DigitsAllIn(s: string, at: nat, n: nat)
    requires at + n <= |s|
    ensures AllIn(HEX, s[at..at + n]) <==> Digits(s, at, at + n)
  {
    forall c ensures InClass(HEX, c) <==> IsHexDigit(c) {
      HexClass(c);
    }
    hide InClass, IsHexDigit;
    if AllIn(HEX, s[at..at + n]) {
      forall i | at <= i < at + n ensures IsHexDigit(s[i]) {
        assert s[at..at + n][i - at] == s[i];
      }
    }
  }

  lemma UuidExactly(s: string)
    ensures IsUuid(s) <==> FullMatch(UUID, s)
  {
    hide FullMatch, IsHexDigit;
    assert s[0..] == s;
    DigitsFirst(UUID, s, 0, 8);
    if |s| >= 36 {
      DashAndDigits(UUID[1..], s, 8, 4);
      assert UUID[1..][2..] == UUID[3..];
      DashAndDigits(UUID[3..], s, 13, 4);
      assert UUID[3..][2..] == UUID[5..];
      DashAndDigits(UUID[5..], s, 18, 4);
      assert UUID[5..][2..] == UUID[7..];
      DashAndDigits(UUID[7..], s, 23, 12);
      assert UUID[7..][2..] == [];
      MatchNone(s[36..]);
    } else {
      ShortUuid(s);
    }
  }

  /** Every match has at least as many characters as the pieces ask for. */
  function LeastLength(pattern: seq<Piece>): nat {
    if pattern == [] then 0 else pattern[0].least + LeastLength(pattern[1..])
  }

  lemma {:induction false} MatchLength(pattern: seq<Piece>, s: string)
    requires FullMatch(pattern, s)
    ensures |s| >= LeastLength(pattern)
    decreases |pattern|
  {
    if pattern != [] {
      var k :| && 0 <= k <= |s| && pattern[0].least <= k <= pattern[0].most
               && FullMatch(pattern[1..], s[k..]) && AllIn(pattern[0].ranges, s[..k]);
      MatchLength(pattern[1..], s[k..]);
    }
  }

  lemma ShortUuid(s: string)
    requires |s| < 36
    ensures !FullMatch(UUID, s)
  {
    if FullMatch(UUID, s) {
      MatchLength(UUID, s);
      UuidLength();
    }
  }

  lemma LeastStep(pattern: seq<Piece>, k: nat)
    requires k < |pattern|
    ensures LeastLength(pattern[k..]) == pattern[k].least + LeastLength(pattern[k + 1..])
  {
    assert pattern[k..][1..] == pattern[k + 1..];
  }

  lemma UuidLength()
    ensures LeastLength(UUID) == 36
  {
    hide LeastLength;
    LeastStep(UUID, 8);
    LeastStep(UUID, 7);
    LeastStep(UUID, 6);
    LeastStep(UUID, 5);
    LeastStep(UUID, 4);
    LeastStep(UUID, 3);
    LeastStep(UUID, 2);
    LeastStep(UUID, 1);
    LeastStep(UUID, 0);
    assert UUID[0..] == UUID;
    NoLength(UUID[9..]);
  }

  lemma NoLength(pattern: seq<Piece>)
    requires pattern == []
    ensures LeastLength(pattern) == 0
  {
  }
}
