/** Stable insertion sort over a total preorder, and the lexicographic orders used as sort keys. */
module Ordering {

  ghost predicate TotalPreorder<T(!new)>(leq: (T, T) -> bool) {
    && (forall x, y :: leq(x, y) || leq(y, x))
    && (forall x, y, z :: leq(x, y) && leq(y, z) ==> leq(x, z))
  }

  ghost predicate Sorted<T>(leq: (T, T) -> bool, s: seq<T>) {
    forall i, j :: 0 <= i < j < |s| ==> leq(s[i], s[j])
  }

  /** Elements of `s` that the order cannot tell apart are equal. */
  ghost predicate Antisymmetric<T>(leq: (T, T) -> bool, s: seq<T>) {
    forall i, j :: 0 <= i < |s| && 0 <= j < |s| && leq(s[i], s[j]) && leq(s[j], s[i]) ==> s[i] == s[j]
  }

  function Insert<T>(leq: (T, T) -> bool, x: T, s: seq<T>): seq<T> {
    if s == [] then [x]
    else if leq(x, s[0]) then [x] + s
    else [s[0]] + Insert(leq, x, s[1..])
  }

  function Sort<T>(leq: (T, T) -> bool, s: seq<T>): seq<T> {
    if s == [] then [] else Insert(leq, s[0], Sort(leq, s[1..]))
  }

  lemma {:induction false} InsertPermutes<T>(leq: (T, T) -> bool, x: T, s: seq<T>)
    ensures multiset(Insert(leq, x, s)) == multiset{x} + multiset(s)
    ensures |Insert(leq, x, s)| == |s| + 1
  {
    if s == [] || leq(x, s[0]) {
    } else {
      InsertPermutes(leq, x, s[1..]);
      assert s == [s[0]] + s[1..];
    }
  }

  lemma {:induction false} InsertSorts<T(!new)>(leq: (T, T) -> bool, x: T, s: seq<T>)
    requires TotalPreorder(leq) && Sorted(leq, s)
    ensures Sorted(leq, Insert(leq, x, s))
  {
    if s == [] {
    } else if leq(x, s[0]) {
      assert forall i :: 0 < i < |s| ==> leq(s[0], s[i]);
    } else {
      InsertSorts(leq, x, s[1..]);
      InsertPermutes(leq, x, s[1..]);
      var t := Insert(leq, x, s[1..]);
      forall i | 0 <= i < |t| ensures leq(s[0], t[i]) {
        assert t[i] in multiset(t);
        assert t[i] == x || t[i] in s[1..];
      }
    }
  }

  /** Sorting returns the sorted permutation. */
  lemma {:induction false} SortSorts<T(!new)>(leq: (T, T) -> bool, s: seq<T>)
    requires TotalPreorder(leq)
    ensures Sorted(leq, Sort(leq, s))
    ensures multiset(Sort(leq, s)) == multiset(s)
    ensures |Sort(leq, s)| == |s|
  {
    hide TotalPreorder;
    if s != [] {
      hide Sorted, Insert;
      SortSorts(leq, s[1..]);
      InsertSorts(leq, s[0], Sort(leq, s[1..]));
      InsertPermutes(leq, s[0], Sort(leq, s[1..]));
      TailMultiset(s);
    }
  }

  lemma SameElements<T>(a: seq<T>, b: seq<T>)
    requires multiset(a) == multiset(b)
    ensures |a| == |b|
    ensures forall x :: x in a <==> x in b
  {
    assert |multiset(a)| == |a| && |multiset(b)| == |b|;
    forall x ensures x in a <==> x in b {
      assert x in a <==> x in multiset(a);
      assert x in b <==> x in multiset(b);
    }
  }

  lemma SortedHead<T(!new)>(leq: (T, T) -> bool, a: seq<T>, b: seq<T>)
    requires TotalPreorder(leq)
    requires Sorted(leq, a) && Sorted(leq, b) && multiset(a) == multiset(b)
    requires Antisymmetric(leq, a)
    requires a != []
    ensures b != [] && a[0] == b[0]
  {
    SameElements(a, b);
    assert b[0] in a && a[0] in b;
    var i :| 0 <= i < |a| && a[i] == b[0];
    var j :| 0 <= j < |b| && b[j] == a[0];
    assert leq(a[0], a[i]);
    assert leq(b[0], b[j]);
  }

  lemma TailMultiset<T>(s: seq<T>)
    requires s != []
    ensures multiset(s[1..]) == multiset(s) - multiset{s[0]}
  {
    assert s == [s[0]] + s[1..];
  }

  lemma SameByFirst<T>(a: seq<T>, b: seq<T>)
    requires a != [] && b != [] && a[0] == b[0] && a[1..] == b[1..]
    ensures a == b
  {
    assert a == [a[0]] + a[1..] && b == [b[0]] + b[1..];
  }

  lemma TailSorted<T>(leq: (T, T) -> bool, s: seq<T>)
    requires s != []
    ensures Sorted(leq, s) ==> Sorted(leq, s[1..])
    ensures Antisymmetric(leq, s) ==> Antisymmetric(leq, s[1..])
  {
  }

  predicate NoDuplicates<T(==)>(s: seq<T>) {
    forall i, j :: 0 <= i < j < |s| ==> s[i] != s[j]
  }

  lemma TwiceIn<T>(s: seq<T>, i: nat, j: nat)
    requires i < j < |s| && s[i] == s[j]
    ensures multiset(s)[s[i]] >= 2
  {
    assert s == s[..j] + ([s[j]] + s[j + 1..]);
    assert s[i] in multiset(s[..j]);
  }

  lemma {:induction false} OnceIn<T>(s: seq<T>, x: T)
    requires forall i, j :: 0 <= i < j < |s| ==> s[i] != s[j]
    ensures multiset(s)[x] <= 1
  {
    if s != [] {
      OnceIn(s[1..], x);
      assert s == [s[0]] + s[1..];
      if s[0] == x {
        assert x !in s[1..];
      }
    }
  }

  lemma {:induction false} NoDuplicatesMultiset<T>(s: seq<T>)
    requires NoDuplicates(s)
    ensures multiset(s) == multiset(set x | x in s)
  {
    if s != [] {
      var t := s[1..];
      NoDuplicatesMultiset(t);
      assert s == [s[0]] + s[1..];
      assert s[0] !in t;
      assert (set x | x in s) == {s[0]} + (set x | x in t);
    }
  }

  /** A sorted arrangement of given elements is unique when the order separates them. */
  lemma {:induction false} SortedUnique<T(!new)>(leq: (T, T) -> bool, a: seq<T>, b: seq<T>)
    requires TotalPreorder(leq)
    requires Sorted(leq, a) && Sorted(leq, b) && multiset(a) == multiset(b)
    requires Antisymmetric(leq, a)
    ensures a == b
  {
    if a == [] {
      SameElements(a, b);
    } else {
      hide Sorted, Antisymmetric, TotalPreorder;
      SortedHead(leq, a, b);
      TailMultiset(a);
      TailMultiset(b);
      TailSorted(leq, a);
      TailSorted(leq, b);
      SortedUnique(leq, a[1..], b[1..]);
      SameByFirst(a, b);
    }
  }

  /** The order of the input does not matter to the sort. */
  lemma SortIgnoresOrder<T(!new)>(leq: (T, T) -> bool, a: seq<T>, b: seq<T>)
    requires TotalPreorder(leq) && multiset(a) == multiset(b)
    requires Antisymmetric(leq, a)
    ensures Sort(leq, a) == Sort(leq, b)
  {
    SortSorts(leq, a);
    SortSorts(leq, b);
    var s := Sort(leq, a);
    SameElements(s, a);
    forall i, j | 0 <= i < |s| && 0 <= j < |s| && leq(s[i], s[j]) && leq(s[j], s[i])
      ensures s[i] == s[j]
    {
      assert s[i] in a && s[j] in a;
    }
    SortedUnique(leq, s, Sort(leq, b));
  }

  function MapSeq<A, B>(f: A -> B, s: seq<A>): (r: seq<B>)
    ensures |r| == |s|
    ensures forall i :: 0 <= i < |s| ==> r[i] == f(s[i])
  {
    seq(|s|, i requires 0 <= i < |s| => f(s[i]))
  }

  lemma {:induction false} InsertCommutesWithMap<A(!new), B(!new)>(
    leqA: (A, A) -> bool, leqB: (B, B) -> bool, f: A -> B, x: A, s: seq<A>)
    requires forall u, v :: leqA(u, v) <==> leqB(f(u), f(v))
    ensures MapSeq(f, Insert(leqA, x, s)) == Insert(leqB, f(x), MapSeq(f, s))
  {
    if s != [] {
      assert MapSeq(f, s)[1..] == MapSeq(f, s[1..]);
      assert leqA(x, s[0]) <==> leqB(f(x), f(s[0]));
      if !leqA(x, s[0]) {
        InsertCommutesWithMap(leqA, leqB, f, x, s[1..]);
        assert MapSeq(f, [s[0]] + Insert(leqA, x, s[1..])) == [f(s[0])] + MapSeq(f, Insert(leqA, x, s[1..]));
      }
    }
  }

  /** Sorting by a key commutes with a map that carries the key along. */
  lemma {:induction false} SortCommutesWithMap<A(!new), B(!new)>(
    leqA: (A, A) -> bool, leqB: (B, B) -> bool, f: A -> B, s: seq<A>)
    requires forall u, v :: leqA(u, v) <==> leqB(f(u), f(v))
    ensures MapSeq(f, Sort(leqA, s)) == Sort(leqB, MapSeq(f, s))
  {
    if s != [] {
      SortCommutesWithMap(leqA, leqB, f, s[1..]);
      InsertCommutesWithMap(leqA, leqB, f, s[0], Sort(leqA, s[1..]));
      assert MapSeq(f, s)[1..] == MapSeq(f, s[1..]);
    }
  }

  // ----- Lexicographic order: bytes of CBOR keys, code points of Python strings

  predicate LexLeq(a: seq<int>, b: seq<int>) {
    a == [] || (b != [] && (a[0] < b[0] || (a[0] == b[0] && LexLeq(a[1..], b[1..]))))
  }

  lemma {:induction false} LexTotal(a: seq<int>, b: seq<int>)
    ensures LexLeq(a, b) || LexLeq(b, a)
  {
    if a != [] && b != [] && a[0] == b[0] {
      LexTotal(a[1..], b[1..]);
    }
  }

  lemma {:induction false} LexTransitive(a: seq<int>, b: seq<int>, c: seq<int>)
    requires LexLeq(a, b) && LexLeq(b, c)
    ensures LexLeq(a, c)
  {
    if a != [] && a[0] == b[0] == c[0] {
      LexTransitive(a[1..], b[1..], c[1..]);
    }
  }

  lemma {:induction false} LexAntisymmetric(a: seq<int>, b: seq<int>)
    requires LexLeq(a, b) && LexLeq(b, a)
    ensures a == b
  {
    if a != [] {
      LexAntisymmetric(a[1..], b[1..]);
      assert a == [a[0]] + a[1..] && b == [b[0]] + b[1..];
    }
  }

  /** At position k one list ends or the two first differ, in favour of `a`. */
  predicate LessAt(a: seq<int>, b: seq<int>, k: nat) {
    k <= |a| && k <= |b| && a[..k] == b[..k] && (k == |a| || (k < |b| && a[k] < b[k]))
  }

  lemma LessAtTail(a: seq<int>, b: seq<int>, k: nat)
    requires a != [] && b != [] && a[0] == b[0]
    ensures LessAt(a, b, k + 1) <==> LessAt(a[1..], b[1..], k)
    ensures !LessAt(a, b, 0)
  {
    if k + 1 <= |a| && k + 1 <= |b| {
      assert a[..k + 1] == [a[0]] + a[1..][..k] && b[..k + 1] == [b[0]] + b[1..][..k];
    }
  }

  lemma LessAtHeads(a: seq<int>, b: seq<int>, k: nat)
    requires a != [] && b != [] && a[0] != b[0]
    ensures LessAt(a, b, k) <==> k == 0 && a[0] < b[0]
  {
    if 0 < k <= |a| && k <= |b| {
      assert a[..k][0] == a[0] && b[..k][0] == b[0];
    }
  }

  /** A prefix comes first, otherwise the first difference decides. */
  lemma {:induction false} LexLeqExactly(a: seq<int>, b: seq<int>)
    ensures LexLeq(a, b) <==> exists k :: LessAt(a, b, k)
  {
    if a == [] {
      assert LessAt(a, b, 0);
    } else if b == [] {
    } else if a[0] == b[0] {
      hide LessAt;
      LexLeqExactly(a[1..], b[1..]);
      if k: nat :| LessAt(a, b, k) {
        LessAtTail(a, b, if k == 0 then 0 else k - 1);
      }
      if k: nat :| LessAt(a[1..], b[1..], k) {
        LessAtTail(a, b, k);
      }
    } else {
      hide LessAt;
      LessAtHeads(a, b, 0);
      forall k: nat ensures LessAt(a, b, k) ==> a[0] < b[0] {
        LessAtHeads(a, b, k);
      }
    }
  }

  function Codes(s: string): seq<int> {
    seq(|s|, i requires 0 <= i < |s| => s[i] as int)
  }

  /** Python's order on `str`: by code point. */
  predicate StringLeq(a: string, b: string) {
    LexLeq(Codes(a), Codes(b))
  }

  lemma CodesInjective(a: string, b: string)
    requires Codes(a) == Codes(b)
    ensures a == b
  {
    assert |a| == |Codes(a)| == |b|;
    forall i | 0 <= i < |a| ensures a[i] == b[i] {
      assert Codes(a)[i] == Codes(b)[i];
    }
  }

  lemma StringOrder()
    ensures TotalPreorder(StringLeq)
    ensures forall a, b :: StringLeq(a, b) && StringLeq(b, a) ==> a == b
  {
    forall a, b ensures StringLeq(a, b) || StringLeq(b, a) {
      LexTotal(Codes(a), Codes(b));
    }
    forall a, b, c | StringLeq(a, b) && StringLeq(b, c) ensures StringLeq(a, c) {
      LexTransitive(Codes(a), Codes(b), Codes(c));
    }
    forall a, b | StringLeq(a, b) && StringLeq(b, a) ensures a == b {
      LexAntisymmetric(Codes(a), Codes(b));
      CodesInjective(a, b);
    }
  }
}
