/**
  The text primitives by what they mean: UTF-8 decoding accepts exactly the encodings, `strip` leaves the middle between
  two runs of white space, `fromhex` splits at spaces, lower-casing moves the 26 letters.
 */
module TextExact {
  import opened Basics
  import opened Text

  // ----- UTF-8

  lemma TwoBytes(b: Byte, c: Byte)
    requires 0xC2 <= b < 0xE0 && Continuation(c)
    ensures var v := Bits(b, 0xC0) * 64 + Bits(c, 0x80);
            && 0x80 <= v < 0x800 && 0xC0 + v / 64 == b && 0x80 + v % 64 == c
  {
  }

  lemma ThreeBytes(b: Byte, c: Byte, d: Byte)
    requires 0xE0 <= b < 0xF0 && Continuation(c) && Continuation(d)
    ensures var v := Bits(b, 0xE0) * 4096 + Bits(c, 0x80) * 64 + Bits(d, 0x80);
            && 0 <= v < 0x10000 && 0xE0 + v / 4096 == b && 0x80 + v / 64 % 64 == c && 0x80 + v % 64 == d
  {
    var v := Bits(b, 0xE0) * 4096 + Bits(c, 0x80) * 64 + Bits(d, 0x80);
    assert v / 64 == Bits(b, 0xE0) * 64 + Bits(c, 0x80);
    assert v / 4096 == v / 64 / 64;
  }

  lemma FourBytes(b: Byte, c: Byte, d: Byte, e: Byte)
    requires 0xF0 <= b < 0xF5 && Continuation(c) && Continuation(d) && Continuation(e)
    ensures var v := Bits(b, 0xF0) * 262144 + Bits(c, 0x80) * 4096 + Bits(d, 0x80) * 64 + Bits(e, 0x80);
            && 0 <= v && 0xF0 + v / 262144 == b && 0x80 + v / 4096 % 64 == c && 0x80 + v / 64 % 64 == d
            && 0x80 + v % 64 == e
  {
    var v := Bits(b, 0xF0) * 262144 + Bits(c, 0x80) * 4096 + Bits(d, 0x80) * 64 + Bits(e, 0x80);
    assert v / 64 == Bits(b, 0xF0) * 4096 + Bits(c, 0x80) * 64 + Bits(d, 0x80);
    assert v / 64 / 64 == Bits(b, 0xF0) * 64 + Bits(c, 0x80);
    TwoDivisions(v);
  }

  /** What is decoded as a character is the encoding of that character. */
  lemma DecodedChar(data: Bytes)
    requires DecodeChar(data).Some?
    ensures var (c, n) := DecodeChar(data).value; EncodeChar(c) == data[..n]
  {
    var (c, n) := DecodeChar(data).value;
    if data[0] < 0x80 {
      assert data[..1] == [data[0]];
    } else if data[0] < 0xE0 {
      TwoBytes(data[0], data[1]);
      assert data[..2] == [data[0], data[1]];
    } else if data[0] < 0xF0 {
      ThreeBytes(data[0], data[1], data[2]);
      assert data[..3] == [data[0], data[1], data[2]];
    } else {
      FourBytes(data[0], data[1], data[2], data[3]);
      assert data[..4] == [data[0], data[1], data[2], data[3]];
    }
  }

  lemma Utf8Cons(c: char, s: string)
    ensures Utf8([c] + s) == EncodeChar(c) + Utf8(s)
  {
    ConsParts(c, s);
  }

  lemma {:induction false} DecodedIsEncoded(data: Bytes)
    requires DecodeUtf8(data).Some?
    ensures Utf8(DecodeUtf8(data).value) == data
    decreases |data|
  {
    if data != [] {
      hide DecodeChar, EncodeChar, Utf8;
      var (c, n) := DecodeChar(data).value;
      DecodedChar(data);
      DecodedIsEncoded(data[n..]);
      Utf8Cons(c, DecodeUtf8(data[n..]).value);
      assert data == data[..n] + data[n..];
    }
  }

  /** The strict decoder accepts exactly the encodings, each as the text it encodes. */
  lemma DecodesExactly(data: Bytes, s: string)
    ensures DecodeUtf8(data) == Some(s) <==> Utf8(s) == data
  {
    hide DecodeUtf8, Utf8;
    Utf8RoundTrip(s);
    if DecodeUtf8(data).Some? {
      DecodedIsEncoded(data);
    }
  }

  // ----- White space

  /** The characters `str.strip()` removes, by code point. */
  lemma SpaceCodes(c: char)
    ensures IsSpace(c) <==>
            c as int in {9, 10, 11, 12, 13, 28, 29, 30, 31, 32, 133, 160, 5760, 8192, 8193, 8194, 8195, 8196, 8197,
                         8198, 8199, 8200, 8201, 8202, 8232, 8233, 8239, 8287, 12288}
    ensures IsAsciiSpace(c) <==> c as int in {9, 10, 11, 12, 13, 32}
  {
  }

  predicate AllSpace(s: string) {
    forall i | 0 <= i < |s| :: IsSpace(s[i])
  }

  /** `r` stands between two runs of white space. */
  predicate Between(s: string, r: string, i: nat) {
    i + |r| <= |s| && s[i..i + |r|] == r && AllSpace(s[..i]) && AllSpace(s[i + |r|..])
  }

  lemma {:induction false} LeftAt(s: string, i: nat)
    requires i <= |s| && AllSpace(s[..i]) && (i < |s| ==> !IsSpace(s[i]))
    ensures StripLeft(s) == s[i..]
  {
    hide IsSpace;
    if i > 0 {
      assert s[..i][0] == s[0];
      assert s[1..][..i - 1] == s[..i][1..];
      assert AllSpace(s[1..][..i - 1]);
      LeftAt(s[1..], i - 1);
    } else if s == [] {
    }
  }

  lemma {:induction false} RightAt(s: string, j: nat)
    requires j <= |s| && AllSpace(s[j..]) && (j > 0 ==> !IsSpace(s[j - 1]))
    ensures StripRight(s) == s[..j]
  {
    hide IsSpace;
    if j < |s| {
      var front := s[..|s| - 1];
      assert s[j..][|s| - 1 - j] == s[|s| - 1];
      forall k | 0 <= k < |front[j..]| ensures IsSpace(front[j..][k]) {
        assert front[j..][k] == s[j..][k];
      }
      RightAt(front, j);
      assert front[..j] == s[..j];
    }
  }

  lemma {:induction false} LeftRemoves(s: string)
    ensures forall k | 0 <= k < |s| - |StripLeft(s)| :: IsSpace(s[k])
  {
    hide IsSpace;
    if s != [] && IsSpace(s[0]) {
      LeftRemoves(s[1..]);
      forall k | 0 <= k < |s| - |StripLeft(s)| ensures IsSpace(s[k]) {
        assert k > 0 ==> s[k] == s[1..][k - 1];
      }
    }
  }

  lemma {:induction false} RightRemoves(s: string)
    ensures forall k | |StripRight(s)| <= k < |s| :: IsSpace(s[k])
  {
    hide IsSpace;
    if s != [] && IsSpace(s[|s| - 1]) {
      var front := s[..|s| - 1];
      RightRemoves(front);
      forall k | |StripRight(s)| <= k < |s| ensures IsSpace(s[k]) {
        assert k < |s| - 1 ==> s[k] == front[k];
      }
    }
  }

  lemma Nested(s: string, t: string, r: string)
    requires |t| <= |s| && t == s[|s| - |t|..] && |r| <= |t| && r == t[..|r|]
    ensures var i := |s| - |t|; i + |r| <= |s| && s[i..i + |r|] == r && s[i + |r|..] == t[|r|..]
  {
  }

  lemma StripLeaves(s: string)
    ensures exists i: nat :: Between(s, Strip(s), i)
  {
    hide IsSpace, StripLeft, StripRight;
    var t := StripLeft(s);
    LeftRemoves(s);
    RightRemoves(t);
    Nested(s, t, StripRight(t));
    assert Between(s, Strip(s), |s| - |t|);
  }

  lemma BetweenIsStripped(s: string, r: string, i: nat)
    requires Trimmed(r) && Between(s, r, i)
    ensures Strip(s) == r
  {
    hide IsSpace, StripLeft, StripRight;
    if r == [] {
      assert s == s[..i] + s[i + |r|..];
      BlankStripped(s);
    } else {
      assert s[i..i + |r|][0] == s[i];
      LeftAt(s, i);
      var t := s[i..];
      assert t[..|r|] == s[i..i + |r|] && t[|r|..] == s[i + |r|..];
      assert t[|r| - 1] == r[|r| - 1];
      RightAt(t, |r|);
    }
  }

  lemma BlankStripped(s: string)
    requires AllSpace(s)
    ensures Strip(s) == []
  {
    hide IsSpace;
    assert s[..|s|] == s;
    LeftAt(s, |s|);
  }

  /** `strip` gives the trimmed text that stands between two runs of white space, and only that. */
  lemma StripExactly(s: string, r: string)
    ensures Strip(s) == r <==> Trimmed(r) && exists i: nat :: Between(s, r, i)
  {
    hide Strip, Between, Trimmed;
    StripTrims(s);
    StripLeaves(s);
    if Trimmed(r) && exists i: nat :: Between(s, r, i) {
      var i: nat :| Between(s, r, i);
      BetweenIsStripped(s, r, i);
    }
  }

  // ----- Letters and hexadecimal

  lemma LowerLetters()
    ensures Lower("ABCDEFGHIJKLMNOPQRSTUVWXYZ") == "abcdefghijklmnopqrstuvwxyz"
    ensures forall c :: !('A' <= c <= 'Z') ==> LowerChar(c) == c
  {
  }

  /** A space splits `fromhex` into two independent readings. */
  lemma {:induction false} FromHexSplits(a: string, c: char, b: string)
    requires IsAsciiSpace(c)
    ensures FromHex(a + ([c] + b)) == if FromHex(a).None? || FromHex(b).None? then None
                                      else Some(FromHex(a).value + FromHex(b).value)
    decreases |a|
  {
    hide HexValue;
    var s := a + ([c] + b);
    if a == [] {
      assert s == [c] + b && s[1..] == b;
      assert FromHex(b).Some? ==> [] + FromHex(b).value == FromHex(b).value;
    } else if IsAsciiSpace(a[0]) {
      assert s[1..] == a[1..] + ([c] + b);
      FromHexSplits(a[1..], c, b);
    } else if |a| >= 2 {
      assert s[2..] == a[2..] + ([c] + b);
      FromHexSplits(a[2..], c, b);
      if IsHexDigit(a[0]) && IsHexDigit(a[1]) && FromHex(a[2..]).Some? && FromHex(b).Some? {
        Assoc([HexValue(a[0]) * 16 + HexValue(a[1])], FromHex(a[2..]).value, FromHex(b).value);
      }
    } else {
      assert s[1] == c;
    }
  }

  /** Without spaces, `fromhex` accepts exactly an even number of hexadecimal digits, and `hex` undoes it. */
  lemma {:induction false} FromHexExactly(s: string, data: Bytes)
    requires forall i | 0 <= i < |s| :: !IsAsciiSpace(s[i])
    ensures FromHex(s) == Some(data) <==> Hex(data) == s
  {
    if FromHex(s).Some? {
      OnlyDigits(s);
      HexFromHex(s);
    }
    FromHexRoundTrip(data);
  }

  lemma {:induction false} OnlyDigits(s: string)
    requires FromHex(s).Some? && forall i | 0 <= i < |s| :: !IsAsciiSpace(s[i])
    ensures IsHex(s) && |s| % 2 == 0
    decreases |s|
  {
    if s != [] {
      hide IsAsciiSpace, IsHexDigit;
      OnlyDigits(s[2..]);
      forall i | 0 <= i < |s| ensures IsHexDigit(s[i]) {
        if i >= 2 {
          assert s[i] == s[2..][i - 2];
        }
      }
    }
  }
}
