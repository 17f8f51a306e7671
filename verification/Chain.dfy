/**
  Hash chains: the condition `verify_continuity_chain` decides on the links it has collected, stated without
  sorting, and the sort-and-walk that decides it.
 */
module Chain {
  import opened Basics
  import opened Ordering

  /** What the chain check looks at in a normalised receipt. */
  datatype Link = Link(runId: string, number: int, prev: Option<string>, digest: string)

  /** Numbers start at 1, and exactly the first link has no predecessor: what normalisation guarantees. */
  predicate Normal(x: Link) {
    x.number >= 1 && (x.number == 1 <==> x.prev.None?)
  }

  predicate AllNormal(s: seq<Link>) {
    forall i | 0 <= i < |s| :: Normal(s[i])
  }

  // ----- The declarative chain condition

  predicate SamePlace(x: Link, y: Link) {
    x.runId == y.runId && x.number == y.number
  }

  predicate DistinctPlaces(s: seq<Link>) {
    forall i, j :: 0 <= i < |s| && 0 <= j < |s| && SamePlace(s[i], s[j]) ==> i == j
  }

  predicate Follows(x: Link, p: Link) {
    p.runId == x.runId && p.number == x.number - 1 && x.prev == Some(p.digest)
  }

  predicate Anchored(x: Link, s: seq<Link>) {
    x.number == 1 || exists j | 0 <= j < |s| :: Follows(x, s[j])
  }

  /** No number twice in a run, and every later link names the digest of its predecessor. */
  predicate WellLinked(s: seq<Link>) {
    DistinctPlaces(s) && forall i | 0 <= i < |s| :: Anchored(s[i], s)
  }

  // ----- The check of the code

  /** The sort key (run, number). */
  predicate LinkLeq(a: Link, b: Link) {
    (a.runId == b.runId && a.number <= b.number) || (a.runId != b.runId && StringLeq(a.runId, b.runId))
  }

  /** One iteration: a new run starts at 1 without prev, an old run continues its last link. */
  predicate Continues(prevByRun: map<string, Link>, x: Link) {
    if x.runId !in prevByRun then x.number == 1 && x.prev.None?
    else x.number == prevByRun[x.runId].number + 1 && x.prev == Some(prevByRun[x.runId].digest)
  }

  predicate CheckSorted(prevByRun: map<string, Link>, s: seq<Link>)
    decreases |s|
  {
    s == [] || (Continues(prevByRun, s[0]) && CheckSorted(prevByRun[s[0].runId := s[0]], s[1..]))
  }

  // ----- The check decides the condition

  lemma LinkOrder()
    ensures TotalPreorder(LinkLeq)
  {
    hide StringLeq;
    StringOrder();
    forall a, b ensures LinkLeq(a, b) || LinkLeq(b, a) {
      assert StringLeq(a.runId, b.runId) || StringLeq(b.runId, a.runId);
    }
    forall a, b, c | LinkLeq(a, b) && LinkLeq(b, c) ensures LinkLeq(a, c) {
      if a.runId != b.runId && b.runId != c.runId {
        assert StringLeq(a.runId, b.runId) && StringLeq(b.runId, c.runId);
      }
    }
  }

  /** The last link seen of every run. */
  function LastByRun(s: seq<Link>): map<string, Link> {
    if s == [] then map[] else LastByRun(s[..|s| - 1])[s[|s| - 1].runId := s[|s| - 1]]
  }

  predicate RunOrdered(s: seq<Link>) {
    forall i, j :: 0 <= i < j < |s| && s[i].runId == s[j].runId ==> s[i].number <= s[j].number
  }

  lemma {:induction false} LastIsMember(s: seq<Link>, run: string)
    requires run in LastByRun(s)
    ensures LastByRun(s)[run] in s && LastByRun(s)[run].runId == run
  {
    if s[|s| - 1].runId != run {
      LastIsMember(s[..|s| - 1], run);
    }
  }

  lemma {:induction false} LastCovers(s: seq<Link>, i: nat)
    requires RunOrdered(s) && i < |s|
    ensures s[i].runId in LastByRun(s) && s[i].number <= LastByRun(s)[s[i].runId].number
  {
    if s[|s| - 1].runId != s[i].runId {
      LastCovers(s[..|s| - 1], i);
    }
  }

  lemma LastFacts(s: seq<Link>, run: string)
    requires RunOrdered(s)
    ensures run in LastByRun(s) <==> exists i | 0 <= i < |s| :: s[i].runId == run
    ensures run in LastByRun(s) ==>
              && LastByRun(s)[run] in s && LastByRun(s)[run].runId == run
              && forall i | 0 <= i < |s| && s[i].runId == run :: s[i].number <= LastByRun(s)[run].number
  {
    hide LastByRun, RunOrdered;
    if run in LastByRun(s) {
      LastIsMember(s, run);
    }
    forall i | 0 <= i < |s| && s[i].runId == run
      ensures run in LastByRun(s) && s[i].number <= LastByRun(s)[run].number
    {
      LastCovers(s, i);
    }
  }

  lemma Extend(done: seq<Link>, x: Link)
    requires RunOrdered(done + [x]) && WellLinked(done) && Continues(LastByRun(done), x)
    ensures WellLinked(done + [x])
  {
    hide LastByRun;
    var s := done + [x];
    OrderedPrefix(done, [x]);
    LastFacts(done, x.runId);
    assert forall i :: 0 <= i < |done| ==> s[i] == done[i];
    assert forall i :: 0 <= i < |done| ==> !SamePlace(done[i], x);
    forall i | 0 <= i < |s| ensures Anchored(s[i], s) {
      if i < |done| {
        assert Anchored(done[i], done);
        if done[i].number != 1 {
          var j :| 0 <= j < |done| && Follows(done[i], done[j]);
          assert Follows(s[i], s[j]);
        }
      } else if x.number != 1 {
        var p := LastByRun(done)[x.runId];
        var j :| 0 <= j < |done| && done[j] == p;
        assert Follows(s[i], s[j]);
      }
    }
  }

  lemma Earlier(s: seq<Link>, i: nat, j: nat)
    requires RunOrdered(s) && i < |s| && j < |s| && Follows(s[i], s[j])
    ensures j < i
  {
  }

  /** In a run-ordered sequence the predecessor of a link stands before it. */
  lemma PredecessorBefore(done: seq<Link>, x: Link, rest: seq<Link>)
    requires var s := done + ([x] + rest); RunOrdered(s) && WellLinked(s)
    ensures x.number != 1 ==> exists j | 0 <= j < |done| :: Follows(x, done[j])
  {
    var s := done + ([x] + rest);
    assert s[|done|] == x && Anchored(s[|done|], s);
    if x.number != 1 {
      var j :| 0 <= j < |s| && Follows(x, s[j]);
      Earlier(s, |done|, j);
      assert s[j] == done[j];
    }
  }

  lemma MustContinue(done: seq<Link>, x: Link, rest: seq<Link>)
    requires var s := done + ([x] + rest); RunOrdered(s) && WellLinked(s) && AllNormal(s)
    ensures Continues(LastByRun(done), x)
  {
    hide LastByRun;
    var s := done + ([x] + rest);
    var n := |done|;
    assert s[n] == x && Normal(s[n]);
    assert forall i :: 0 <= i < n ==> s[i] == done[i];
    OrderedPrefix(done, [x] + rest);
    LastFacts(done, x.runId);
    PredecessorBefore(done, x, rest);
    if x.runId in LastByRun(done) {
      var p := LastByRun(done)[x.runId];
      var i :| 0 <= i < n && done[i] == p;
      assert s[i].number <= s[n].number && Normal(s[i]) && !SamePlace(s[i], s[n]);
      var j :| 0 <= j < n && Follows(x, done[j]);
      assert SamePlace(s[i], s[j]);
    }
  }

  lemma {:induction false} CheckDecides(done: seq<Link>, s: seq<Link>)
    requires RunOrdered(done + s) && AllNormal(done + s) && WellLinked(done)
    ensures CheckSorted(LastByRun(done), s) <==> WellLinked(done + s)
    decreases |s|
  {
    hide WellLinked, RunOrdered, AllNormal, Continues;
    if s == [] {
      assert done + s == done;
    } else {
      var x, rest, done' := s[0], s[1..], done + [s[0]];
      HeadTail(s);
      assert done + s == done + ([x] + rest);
      assert done' + rest == done + s;
      assert done'[..|done'| - 1] == done;
      if Continues(LastByRun(done), x) {
        OrderedPrefix(done', rest);
        Extend(done, x);
        CheckDecides(done', rest);
      } else if WellLinked(done + s) {
        MustContinue(done, x, rest);
      }
    }
  }

  lemma OrderedPrefix(a: seq<Link>, b: seq<Link>)
    requires RunOrdered(a + b)
    ensures RunOrdered(a)
  {
    forall i, j | 0 <= i < j < |a| && a[i].runId == a[j].runId ensures a[i].number <= a[j].number {
      assert (a + b)[i] == a[i] && (a + b)[j] == a[j];
    }
  }

  lemma SortedRunOrdered(s: seq<Link>)
    requires Sorted(LinkLeq, s)
    ensures RunOrdered(s)
  {
    hide StringLeq;
    forall i, j | 0 <= i < j < |s| && s[i].runId == s[j].runId ensures s[i].number <= s[j].number {
      assert LinkLeq(s[i], s[j]);
    }
  }

  lemma NormalPermuted(s: seq<Link>, t: seq<Link>)
    requires multiset(s) == multiset(t) && AllNormal(s)
    ensures AllNormal(t)
  {
    hide Normal;
    SameElements(s, t);
    forall i | 0 <= i < |t| ensures Normal(t[i]) {
      assert t[i] in s;
    }
  }

  /** Sorting and walking accepts exactly the well-linked sets. */
  lemma SortedCheck(s: seq<Link>)
    requires AllNormal(s)
    ensures CheckSorted(map[], Sort(LinkLeq, s)) <==> WellLinked(s)
  {
    hide WellLinked, CheckSorted, AllNormal, RunOrdered, LinkLeq, Sorted, TotalPreorder, Sort;
    var sorted := Sort(LinkLeq, s);
    LinkOrder();
    SortSorts(LinkLeq, s);
    SortedRunOrdered(sorted);
    NormalPermuted(s, sorted);
    assert [] + sorted == sorted && LastByRun([]) == map[];
    EmptyWellLinked();
    CheckDecides([], sorted);
    if WellLinked(s) {
      WellLinkedPermuted(s, sorted);
    }
    if WellLinked(sorted) {
      WellLinkedPermuted(sorted, s);
    }
  }

  lemma EmptyWellLinked()
    ensures WellLinked([]) && AllNormal([])
  {
  }

  /** The condition does not depend on the order of the links. */
  lemma WellLinkedPermuted(s: seq<Link>, t: seq<Link>)
    requires multiset(s) == multiset(t) && WellLinked(s)
    ensures WellLinked(t)
  {
    DistinctPermuted(s, t);
    SameElements(s, t);
    forall i | 0 <= i < |t| ensures Anchored(t[i], t) {
      assert t[i] in s;
      var a :| 0 <= a < |s| && s[a] == t[i];
      assert Anchored(s[a], s);
      if t[i].number != 1 {
        var b :| 0 <= b < |s| && Follows(t[i], s[b]);
        assert s[b] in t;
        var j :| 0 <= j < |t| && t[j] == s[b];
        assert Follows(t[i], t[j]);
      }
    }
  }

  lemma DistinctPermuted(s: seq<Link>, t: seq<Link>)
    requires multiset(s) == multiset(t) && DistinctPlaces(s)
    ensures DistinctPlaces(t)
  {
    SameElements(s, t);
    forall i, j | 0 <= i < |t| && 0 <= j < |t| && SamePlace(t[i], t[j]) ensures i == j {
      assert t[i] in s && t[j] in s;
      var a :| 0 <= a < |s| && s[a] == t[i];
      var b :| 0 <= b < |s| && s[b] == t[j];
      assert a == b;
      OnceInLinks(s, t[i]);
      if i < j {
        TwiceIn(t, i, j);
      } else if j < i {
        TwiceIn(t, j, i);
      }
    }
  }

  lemma OnceInLinks(s: seq<Link>, x: Link)
    requires DistinctPlaces(s)
    ensures multiset(s)[x] <= 1
  {
    forall i, j | 0 <= i < j < |s| ensures s[i] != s[j] {
      assert SamePlace(s[i], s[i]);
    }
    OnceIn(s, x);
  }

  // ----- Numbers

  predicate HasNumber(s: seq<Link>, run: string, k: int) {
    exists i | 0 <= i < |s| :: s[i].runId == run && s[i].number == k
  }

  /** In a well-linked set every run carries the numbers 1 up to some n (each once, by `DistinctPlaces`). */
  lemma {:induction false} RunNumbered(s: seq<Link>, run: string) returns (n: nat)
    requires AllNormal(s) && WellLinked(s)
    ensures forall k :: HasNumber(s, run, k) <==> 1 <= k <= n
  {
    n := 0;
    while HasNumber(s, run, n + 1)
      invariant forall k | 1 <= k <= n :: HasNumber(s, run, k)
      invariant n <= MaxNumber(s)
      decreases MaxNumber(s) - n
    {
      var i :| 0 <= i < |s| && s[i].runId == run && s[i].number == n + 1;
      BelowMax(s, i);
      n := n + 1;
    }
    forall k | HasNumber(s, run, k) ensures 1 <= k <= n {
      var i :| 0 <= i < |s| && s[i].runId == run && s[i].number == k;
      assert Normal(s[i]);
      if k > n {
        NoGap(s, run, k, n + 1);
      }
    }
  }

  function MaxNumber(s: seq<Link>): nat {
    if s == [] then 0
    else
      var m := MaxNumber(s[1..]);
      if s[0].number > m then s[0].number else m
  }

  lemma {:induction false} BelowMax(s: seq<Link>, i: nat)
    requires i < |s|
    ensures s[i].number <= MaxNumber(s)
  {
    if i > 0 {
      BelowMax(s[1..], i - 1);
    }
  }

  lemma PredecessorNumber(s: seq<Link>, run: string, k: int)
    requires WellLinked(s) && HasNumber(s, run, k) && k > 1
    ensures HasNumber(s, run, k - 1)
  {
    var i :| 0 <= i < |s| && s[i].runId == run && s[i].number == k;
    assert Anchored(s[i], s);
    var j :| 0 <= j < |s| && Follows(s[i], s[j]);
    assert s[j].runId == run && s[j].number == k - 1;
  }

  lemma {:induction false} NoGap(s: seq<Link>, run: string, k: int, m: int)
    requires WellLinked(s) && HasNumber(s, run, k) && 1 <= m <= k
    ensures HasNumber(s, run, m)
    decreases k - m
  {
    hide WellLinked, HasNumber;
    if m < k {
      PredecessorNumber(s, run, k);
      NoGap(s, run, k - 1, m);
    }
  }

  // ----- What the condition means run by run

  ghost predicate NumberedTo(s: seq<Link>, run: string, n: nat) {
    forall k :: HasNumber(s, run, k) <==> 1 <= k <= n
  }

  ghost predicate Numbered(s: seq<Link>, run: string) {
    exists n :: NumberedTo(s, run, n)
  }

  /**
    Each run carries its numbers once, they are 1 to n, and a link names the digest of the one numbered just before
    it.
   */
  ghost predicate ChainedRuns(s: seq<Link>) {
    && DistinctPlaces(s)
    && (forall run :: Numbered(s, run))
    && (forall i, j :: 0 <= i < |s| && 0 <= j < |s| && Precedes(s[j], s[i]) ==> s[i].prev == Some(s[j].digest))
  }

  predicate Precedes(p: Link, x: Link) {
    p.runId == x.runId && p.number == x.number - 1
  }

  lemma ChainedIsWellLinked(s: seq<Link>)
    requires AllNormal(s) && ChainedRuns(s)
    ensures WellLinked(s)
  {
    forall i | 0 <= i < |s| ensures Anchored(s[i], s) {
      var x := s[i];
      assert Normal(x) && HasNumber(s, x.runId, x.number) && Numbered(s, x.runId);
      var n :| NumberedTo(s, x.runId, n);
      if x.number > 1 {
        assert HasNumber(s, x.runId, x.number - 1);
        var j :| 0 <= j < |s| && s[j].runId == x.runId && s[j].number == x.number - 1;
        assert Precedes(s[j], s[i]);
        assert Follows(x, s[j]);
      }
    }
  }

  lemma WellLinkedIsChained(s: seq<Link>)
    requires AllNormal(s) && WellLinked(s)
    ensures ChainedRuns(s)
  {
    forall run ensures Numbered(s, run) {
      var n := RunNumbered(s, run);
      assert NumberedTo(s, run, n);
    }
    forall i, j | 0 <= i < |s| && 0 <= j < |s| && Precedes(s[j], s[i]) ensures s[i].prev == Some(s[j].digest) {
      assert Normal(s[j]) && Anchored(s[i], s);
      var k :| 0 <= k < |s| && Follows(s[i], s[k]);
      assert SamePlace(s[k], s[j]);
    }
  }

  /** A single run numbered 1 to n has n links. */
  lemma RunLength(s: seq<Link>, run: string, n: nat)
    requires DistinctPlaces(s) && NumberedTo(s, run, n) && forall i | 0 <= i < |s| :: s[i].runId == run
    ensures |s| == n
  {
    var numbers := set i | 0 <= i < |s| :: s[i].number;
    assert forall i, j :: 0 <= i < |s| && 0 <= j < |s| && s[i].number == s[j].number ==> SamePlace(s[i], s[j]);
    ImageSize(s, |s|);
    forall k ensures k in numbers <==> k in UpTo(n) {
      assert k in numbers <==> HasNumber(s, run, k);
    }
    assert numbers == UpTo(n);
  }

  function UpTo(n: nat): (r: set<int>)
    ensures |r| == n && forall k :: k in r <==> 1 <= k <= n
  {
    if n == 0 then {} else UpTo(n - 1) + {n}
  }

  lemma {:induction false} ImageSize(s: seq<Link>, m: nat)
    requires m <= |s| && forall i, j :: 0 <= i < |s| && 0 <= j < |s| && s[i].number == s[j].number ==> i == j
    ensures |set i | 0 <= i < m :: s[i].number| == m
  {
    if m > 0 {
      ImageSize(s, m - 1);
      var front := set i | 0 <= i < m - 1 :: s[i].number;
      assert (set i | 0 <= i < m :: s[i].number) == front + {s[m - 1].number};
      assert s[m - 1].number !in front;
    }
  }

  // ----- A chain grown one link at a time

  /** Link i has number i + 1 and names the digest of link i - 1. */
  predicate Grown(run: string, s: seq<Link>) {
    forall i | 0 <= i < |s| ::
      s[i].runId == run && s[i].number == i + 1 && (i > 0 ==> s[i].prev == Some(s[i - 1].digest))
  }

  lemma GrownWellLinked(run: string, s: seq<Link>)
    requires Grown(run, s)
    ensures WellLinked(s)
  {
    forall i | 0 <= i < |s| ensures Anchored(s[i], s) {
      if i > 0 {
        assert Follows(s[i], s[i - 1]);
      }
    }
  }

  // ----- Collecting the links of the receipts that declare one

  predicate AllPass<R, T>(f: R -> Result<Option<T>>, s: seq<R>) {
    forall i | 0 <= i < |s| :: f(s[i]).Ok?
  }

  function Item<R, T>(f: R -> Result<Option<T>>, x: R): (r: seq<T>)
    ensures |r| <= 1
  {
    var e := f(x);
    if e.Ok? && e.value.Some? then [e.value.value] else []
  }

  function Kept<R, T>(f: R -> Result<Option<T>>, s: seq<R>): seq<T> {
    if s == [] then [] else Kept(f, s[..|s| - 1]) + Item(f, s[|s| - 1])
  }

  lemma KeptAppend<R, T>(f: R -> Result<Option<T>>, s: seq<R>, x: R)
    ensures Kept(f, s + [x]) == Kept(f, s) + Item(f, x)
  {
    assert (s + [x])[..|s|] == s;
  }

  lemma KeptEnds<R, T>(f: R -> Result<Option<T>>, s: seq<R>)
    requires s != []
    ensures Kept(f, s) == Kept(f, s[..|s| - 1]) + Item(f, s[|s| - 1])
  {
  }

  lemma {:induction false} KeptConcat<R, T>(f: R -> Result<Option<T>>, a: seq<R>, b: seq<R>)
    ensures Kept(f, a + b) == Kept(f, a) + Kept(f, b)
    decreases |b|
  {
    hide Item;
    if b == [] {
      assert a + b == a;
    } else {
      hide Kept;
      var front := b[..|b| - 1];
      KeptConcat(f, a, front);
      KeptEnds(f, b);
      KeptEnds(f, a + b);
      assert (a + b)[..|a + b| - 1] == a + front;
    }
  }

  lemma SplitAt<T>(s: seq<T>, j: nat)
    requires j < |s|
    ensures s == s[..j] + [s[j]] + s[j + 1..]
    ensures multiset(s[..j] + s[j + 1..]) == multiset(s) - multiset{s[j]}
  {
    assert s == s[..j] + [s[j]] + s[j + 1..];
  }

  lemma KeptWithout<R, T>(f: R -> Result<Option<T>>, s: seq<R>, j: nat)
    requires j < |s|
    ensures multiset(Kept(f, s)) == multiset(Item(f, s[j])) + multiset(Kept(f, s[..j] + s[j + 1..]))
  {
    hide Item;
    SplitAt(s, j);
    KeptConcat(f, s[..j] + [s[j]], s[j + 1..]);
    KeptAppend(f, s[..j], s[j]);
    KeptConcat(f, s[..j], s[j + 1..]);
    hide Kept;
  }

  function Without<T>(s: seq<T>, j: nat): (r: seq<T>)
    requires j < |s|
    ensures |r| == |s| - 1
  {
    s[..j] + s[j + 1..]
  }

  lemma SameRest<T>(a: seq<T>, b: seq<T>) returns (j: nat)
    requires multiset(a) == multiset(b) && a != []
    ensures j < |b| && b[j] == a[0] && multiset(Without(a, 0)) == multiset(Without(b, j))
  {
    SameElements(a, b);
    assert a[0] in b;
    j :| 0 <= j < |b| && b[j] == a[0];
    SplitAt(a, 0);
    SplitAt(b, j);
  }

  lemma {:induction false} KeptPermuted<R, T>(f: R -> Result<Option<T>>, a: seq<R>, b: seq<R>)
    requires multiset(a) == multiset(b)
    ensures multiset(Kept(f, a)) == multiset(Kept(f, b))
    decreases |a|
  {
    hide Item, Kept;
    if a == [] {
      SameElements(a, b);
      assert a == b;
    } else {
      var j := SameRest(a, b);
      KeptWithout(f, a, 0);
      KeptWithout(f, b, j);
      KeptPermuted(f, Without(a, 0), Without(b, j));
    }
  }

  lemma PassPermuted<R, T>(f: R -> Result<Option<T>>, a: seq<R>, b: seq<R>)
    requires multiset(a) == multiset(b) && AllPass(f, a)
    ensures AllPass(f, b)
  {
    SameElements(a, b);
    forall i | 0 <= i < |b| ensures f(b[i]).Ok? {
      assert b[i] in a;
    }
  }
}
