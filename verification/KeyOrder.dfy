/**
  The order of object keys: `sorted` compares code points, while section 3.2.3 of RFC 8785 compares UTF-16 code
  units. Exactly where the two orders part.
 */
module KeyOrder {
  import opened Basics
  import opened Ordering
  import opened Json
  import opened JsonDigest

  /** Above the Basic Multilingual Plane: two code units. */
  predicate Astral(c: char) {
    c as int >= 0x10000
  }

  /** Inside the plane, but above the surrogates. */
  predicate High(c: char) {
    0xE000 <= c as int < 0x10000
  }

  function CharUnits(c: char): (r: seq<int>)
    ensures 1 <= |r| <= 2
  {
    var v := c as int;
    if Astral(c) then [0xD800 + (v - 0x10000) / 0x400, 0xDC00 + (v - 0x10000) % 0x400] else [v]
  }

  function Units(s: string): seq<int> {
    if s == [] then [] else CharUnits(s[0]) + Units(s[1..])
  }

  predicate Utf16Leq(a: string, b: string) {
    LexLeq(Units(a), Units(b))
  }

  /** One of each kind, so that their order depends on the encoding. */
  predicate Straddle(c: char, d: char) {
    (Astral(c) && High(d)) || (High(c) && Astral(d))
  }

  /** Position k is where the texts first differ. */
  predicate DifferAt(a: string, b: string, k: nat) {
    k < |a| && k < |b| && a[..k] == b[..k] && a[k] != b[k]
  }

  predicate OrdersPart(a: string, b: string) {
    exists k | 0 <= k < |a| :: DifferAt(a, b, k) && Straddle(a[k], b[k])
  }

  // ----- Character by character

  lemma UnitsOrder(c: char, d: char, x: seq<int>, y: seq<int>)
    requires c != d
    ensures LexLeq(CharUnits(c) + x, CharUnits(d) + y) <==> (if Straddle(c, d) then d < c else c < d)
  {
    var u, v := CharUnits(c) + x, CharUnits(d) + y;
    assert u[0] == CharUnits(c)[0] && v[0] == CharUnits(d)[0];
    if Astral(c) && Astral(d) {
      SurrogatesOrder(c as int - 0x10000, d as int - 0x10000);
      assert u[1..][0] == CharUnits(c)[1] && v[1..][0] == CharUnits(d)[1];
    }
  }

  lemma SurrogatesOrder(m: int, n: int)
    requires 0 <= m && 0 <= n && m != n
    ensures m < n <==> m / 0x400 < n / 0x400 || (m / 0x400 == n / 0x400 && m % 0x400 < n % 0x400)
    ensures m / 0x400 != n / 0x400 || m % 0x400 != n % 0x400
  {
    assert m == m / 0x400 * 0x400 + m % 0x400 && n == n / 0x400 * 0x400 + n % 0x400;
  }

  lemma {:induction false} SharedUnits(p: seq<int>, x: seq<int>, y: seq<int>)
    ensures LexLeq(p + x, p + y) == LexLeq(x, y)
  {
    if p == [] {
      assert p + x == x && p + y == y;
    } else {
      assert (p + x)[1..] == p[1..] + x && (p + y)[1..] == p[1..] + y;
      SharedUnits(p[1..], x, y);
    }
  }

  lemma CodesCons(s: string)
    requires s != []
    ensures Codes(s) == [s[0] as int] + Codes(s[1..])
  {
  }

  lemma SharedFirst(a: string, b: string, k: nat)
    requires k <= |a| && k <= |b|
    ensures k > 0 && a[..k] == b[..k] ==> a[0] == b[0]
  {
    if k > 0 {
      assert a[..k][0] == a[0] && b[..k][0] == b[0];
    }
  }

  lemma PartsCons(a: string, b: string)
    requires a != [] && b != []
    ensures a[0] != b[0] ==> (OrdersPart(a, b) <==> Straddle(a[0], b[0]))
    ensures a[0] == b[0] ==> (OrdersPart(a, b) <==> OrdersPart(a[1..], b[1..]))
  {
    hide Straddle;
    if a[0] != b[0] {
      assert Straddle(a[0], b[0]) ==> DifferAt(a, b, 0);
      forall k: nat | DifferAt(a, b, k) ensures k == 0 {
        SharedFirst(a, b, k);
      }
    } else {
      if OrdersPart(a, b) {
        var k :| 0 <= k < |a| && DifferAt(a, b, k) && Straddle(a[k], b[k]);
        assert a[1..][..k - 1] == a[..k][1..] && b[1..][..k - 1] == b[..k][1..];
        assert DifferAt(a[1..], b[1..], k - 1);
      }
      if OrdersPart(a[1..], b[1..]) {
        var k :| 0 <= k < |a[1..]| && DifferAt(a[1..], b[1..], k) && Straddle(a[1..][k], b[1..][k]);
        assert a[..k + 1] == [a[0]] + a[1..][..k] && b[..k + 1] == [b[0]] + b[1..][..k];
        assert DifferAt(a, b, k + 1);
      }
    }
  }

  /**
    The two orders disagree on two keys exactly when, at their first difference, one character lies above the Basic
    Multilingual Plane and the other in it above the surrogates.
   */
  lemma {:induction false} OrdersDisagreeExactly(a: string, b: string)
    ensures (StringLeq(a, b) <==> Utf16Leq(a, b)) <==> !OrdersPart(a, b)
  {
    hide OrdersPart, LexLeq, Straddle;
    if a == [] || b == [] {
      NoPart(a, b);
    } else {
      CodesCons(a);
      CodesCons(b);
      PartsCons(a, b);
      if a[0] == b[0] {
        OrdersDisagreeExactly(a[1..], b[1..]);
        SharedUnits(CharUnits(a[0]), Units(a[1..]), Units(b[1..]));
        SharedUnits([a[0] as int], Codes(a[1..]), Codes(b[1..]));
      } else {
        UnitsOrder(a[0], b[0], Units(a[1..]), Units(b[1..]));
        CodesOrder(a, b);
      }
    }
  }

  lemma CodesOrder(a: string, b: string)
    requires a != [] && b != [] && a[0] != b[0]
    ensures StringLeq(a, b) <==> a[0] < b[0]
  {
  }

  lemma NoPart(a: string, b: string)
    requires a == [] || b == []
    ensures !OrdersPart(a, b) && (StringLeq(a, b) <==> Utf16Leq(a, b))
  {
    assert b != [] ==> Units(b) != [] && Codes(b) != [];
    assert a != [] ==> Units(a) != [] && Codes(a) != [];
  }

  // ----- An object that is printed in another order than RFC 8785 asks for

  predicate Utf16KeyLeq(a: (string, Json), b: (string, Json)) {
    Utf16Leq(a.0, b.0)
  }

  lemma TwoKeysReordered()
    ensures var high, astral := ("\U{E000}", Int(1)), ("\U{10000}", Int(2));
            && Normalize(Obj([astral, high])) == Obj([high, astral])
            && Sort(Utf16KeyLeq, [astral, high]) == [astral, high]
  {
    var a, b := "\U{E000}", "\U{10000}";
    assert DifferAt(a, b, 0) && Straddle(a[0], b[0]);
    assert DifferAt(b, a, 0) && Straddle(b[0], a[0]);
    OrdersDisagreeExactly(a, b);
    OrdersDisagreeExactly(b, a);
    CodesOrder(a, b);
    CodesOrder(b, a);
    hide StringLeq, Utf16Leq;
    TwoSorted((a, Int(1)), (b, Int(2)));
  }

  lemma TwoSorted(high: (string, Json), astral: (string, Json))
    requires high.1.Int? && astral.1.Int?
    requires !StringLeq(astral.0, high.0) && Utf16Leq(astral.0, high.0)
    ensures Normalize(Obj([astral, high])) == Obj([high, astral])
    ensures Sort(Utf16KeyLeq, [astral, high]) == [astral, high]
  {
    hide StringLeq, Utf16Leq;
    NormalizeObj([astral, high]);
    assert Normalized([astral, high]) == [astral, high];
    SortTwo(KeyLeq, astral, high);
    SortTwo(Utf16KeyLeq, astral, high);
  }

  lemma SortTwo<T>(leq: (T, T) -> bool, x: T, y: T)
    ensures Sort(leq, [x, y]) == if leq(x, y) then [x, y] else [y, x]
  {
    assert [x, y][1..] == [y] && [y][1..] == [];
    assert Sort(leq, [y]) == Insert(leq, y, []) == [y];
    assert Sort(leq, [x, y]) == Insert(leq, x, [y]);
    assert Insert(leq, x, []) == [x] && [y] + [x] == [y, x] && [x] + [y] == [x, y];
  }
}
