/**
  Merkle inclusion proofs for agent receipts.
  The verifier (`_reconstruct_merkle_root`) is measured against the tree hash and audit path of
  sections 2.1 and 2.1.1 of RFC 6962.
 */
module Merkle {
  import opened Basics

  // ----- The split point

  ghost predicate PowerOfTwo(k: int)
    decreases k
  {
    k == 1 || (k > 1 && k % 2 == 0 && PowerOfTwo(k / 2))
  }

  /** Doubles `k` while twice `k` is still below `n`. */
  function DoubleUpTo(k: nat, n: nat): (r: nat)
    requires 1 <= k < n
    ensures k <= r < n <= 2 * r
    decreases n - k
  {
    if k * 2 < n then DoubleUpTo(k * 2, n) else k
  }

  function Split(n: nat): (k: nat)
    requires n >= 2
    ensures 1 <= k < n <= 2 * k
  {
    DoubleUpTo(1, n)
  }

  lemma {:induction false} DoublingKeepsPower(k: nat, n: nat)
    requires 1 <= k < n && PowerOfTwo(k)
    ensures PowerOfTwo(DoubleUpTo(k, n))
    decreases n - k
  {
    if k * 2 < n {
      assert k * 2 / 2 == k;
      DoublingKeepsPower(k * 2, n);
    }
  }

  lemma {:induction false} PowersApart(j: nat, k: nat)
    requires PowerOfTwo(j) && PowerOfTwo(k) && j < k
    ensures 2 * j <= k
    decreases k
  {
    if j > 1 {
      PowersApart(j / 2, k / 2);
    }
  }

  /** The split is the one power of two `k` with `k < n <= 2k`. */
  lemma SplitCharacterised(n: nat, k: nat)
    requires n >= 2
    ensures k == Split(n) <==> PowerOfTwo(k) && k < n <= 2 * k
  {
    DoublingKeepsPower(1, n);
    if PowerOfTwo(k) && k < n <= 2 * k {
      if k < Split(n) {
        PowersApart(k, Split(n));
      } else if Split(n) < k {
        PowersApart(Split(n), k);
      }
    }
  }

  method LargestPowerOfTwoLessThan(n: int) returns (k: int)
    ensures n <= 1 ==> k == 0
    ensures n >= 2 ==> k == Split(n) && PowerOfTwo(k) && k < n <= 2 * k
  {
    if n <= 1 {
      return 0;
    }
    k := 1;
    while k * 2 < n
      invariant 1 <= k < n && PowerOfTwo(k)
      invariant DoubleUpTo(k, n) == Split(n)
      decreases n - k
    {
      assert k * 2 / 2 == k;
      k := k * 2;
    }
  }

  // ----- Hashing

  function LeafInput(data: Bytes): Bytes {
    [0] + data
  }

  function NodeInput(left: Digest, right: Digest): Bytes {
    [1] + left + right
  }

  function LeafHash(hash: Hash, data: Bytes): Digest {
    hash(LeafInput(data))
  }

  function NodeHash(hash: Hash, left: Digest, right: Digest): Digest {
    hash(NodeInput(left, right))
  }

  // ----- The verifier

  /** The input of a node: the rebuilt half on its own side, the next path entry on the other. */
  function TopInput(left: bool, half: Digest, sibling: Digest): Bytes {
    if left then NodeInput(half, sibling) else NodeInput(sibling, half)
  }

  /** One step up: combine the rebuilt half with the next unused path entry. */
  function Climb(hash: Hash, left: bool, half: Option<(Digest, nat)>, path: seq<Digest>): (r: Option<(Digest, nat)>)
    ensures r.Some? ==> r.value.1 <= |path|
  {
    if half.None? || half.value.1 >= |path| then None
    else Some((hash(TopInput(left, half.value.0, path[half.value.1])), half.value.1 + 1))
  }

  /** The rebuilt root and the number of path entries used, or None when the path is too short. */
  function Reconstruct(hash: Hash, leaf: Digest, index: nat, size: nat, path: seq<Digest>): (r: Option<(Digest, nat)>)
    requires index < size
    ensures r.Some? ==> r.value.1 <= |path|
    decreases size
  {
    if size == 1 then Some((leaf, 0))
    else
      var k := Split(size);
      if index < k then Climb(hash, true, Reconstruct(hash, leaf, index, k, path), path)
      else Climb(hash, false, Reconstruct(hash, leaf, index - k, size - k, path), path)
  }

  // ----- The specification side

  /** MTH of section 2.1. */
  function TreeHash(hash: Hash, leaves: seq<Bytes>): Digest {
    if leaves == [] then hash([])
    else if |leaves| == 1 then LeafHash(hash, leaves[0])
    else
      var k := Split(|leaves|);
      NodeHash(hash, TreeHash(hash, leaves[..k]), TreeHash(hash, leaves[k..]))
  }

  /** PATH of section 2.1.1. */
  function AuditPath(hash: Hash, index: nat, leaves: seq<Bytes>): (r: seq<Digest>)
    requires index < |leaves|
    ensures |r| == PathLength(index, |leaves|)
    decreases |leaves|
  {
    if |leaves| == 1 then []
    else
      var k := Split(|leaves|);
      if index < k then AuditPath(hash, index, leaves[..k]) + [TreeHash(hash, leaves[k..])]
      else AuditPath(hash, index - k, leaves[k..]) + [TreeHash(hash, leaves[..k])]
  }

  /** The depth of leaf `index` in a tree of `size` leaves. */
  function PathLength(index: nat, size: nat): nat
    requires index < size
    decreases size
  {
    if size == 1 then 0
    else if index < Split(size) then PathLength(index, Split(size)) + 1
    else PathLength(index - Split(size), size - Split(size)) + 1
  }

  // ----- The topmost node

  predicate OnLeft(index: nat, size: nat)
    requires size >= 2
  {
    index < Split(size)
  }

  /** Where the leaf sits inside its half of the tree. */
  function Half(index: nat, size: nat): (r: (nat, nat))
    requires index < size && size >= 2
    ensures r.0 < r.1 < size
    ensures PathLength(index, size) == PathLength(r.0, r.1) + 1
  {
    var k := Split(size);
    if index < k then (index, k) else (index - k, size - k)
  }

  lemma ReconstructUnfold(hash: Hash, leaf: Digest, index: nat, size: nat, path: seq<Digest>)
    requires index < size && size >= 2
    ensures Reconstruct(hash, leaf, index, size, path)
            == Climb(hash, OnLeft(index, size),
                     Reconstruct(hash, leaf, Half(index, size).0, Half(index, size).1, path), path)
  {
    hide Climb;
    hide PathLength;
    hide Split;
  }

  // ----- Exact shape

  function Power(n: nat): (r: nat)
    ensures r >= 1
  {
    if n == 0 then 1 else 2 * Power(n - 1)
  }

  /** A leaf sits no deeper than any `d` with `size <= 2^d`, so no deeper than ceil(log2 size). */
  lemma {:induction false} PathLengthLogarithmic(index: nat, size: nat, d: nat)
    requires index < size <= Power(d)
    ensures PathLength(index, size) <= d
    decreases size
  {
    if size > 1 {
      var k := Split(size);
      SplitBelowPower(size, d);
      if index < k {
        PathLengthLogarithmic(index, k, d - 1);
      } else {
        PathLengthLogarithmic(index - k, size - k, d - 1);
      }
    }
  }

  lemma {:induction false} PowerIsPowerOfTwo(d: nat)
    ensures PowerOfTwo(Power(d))
  {
    if d > 0 {
      PowerIsPowerOfTwo(d - 1);
      assert Power(d) / 2 == Power(d - 1);
    }
  }

  lemma SplitBelowPower(size: nat, d: nat)
    requires 2 <= size <= Power(d)
    ensures d >= 1 && Split(size) <= Power(d - 1)
  {
    var k := Split(size);
    SplitCharacterised(size, k);
    PowerIsPowerOfTwo(d - 1);
    if k > Power(d - 1) {
      PowersApart(Power(d - 1), k);
    }
  }

  /**
    A path is long enough exactly when it has `PathLength` entries, exactly that many are used,
    and entries beyond them do not matter: shorter paths are rejected, longer ones leave a remainder.
   */
  lemma {:induction false} ReconstructShape(hash: Hash, leaf: Digest, index: nat, size: nat, path: seq<Digest>)
    requires index < size
    ensures Reconstruct(hash, leaf, index, size, path).Some? <==> |path| >= PathLength(index, size)
    ensures Reconstruct(hash, leaf, index, size, path).Some? ==>
              && Reconstruct(hash, leaf, index, size, path).value.1 == PathLength(index, size)
              && Reconstruct(hash, leaf, index, size, path)
                 == Reconstruct(hash, leaf, index, size, path[..PathLength(index, size)])
    decreases size
  {
    if size > 1 {
      hide Reconstruct, Climb, PathLength, Split, Half, OnLeft;
      var n := PathLength(index, size);
      var (i, m) := Half(index, size);
      ReconstructUnfold(hash, leaf, index, size, path);
      ReconstructShape(hash, leaf, i, m, path);
      if |path| >= n {
        ReconstructUnfold(hash, leaf, index, size, path[..n]);
        ReconstructShape(hash, leaf, i, m, path[..n]);
        assert path[..n][..n - 1] == path[..n - 1];
      }
      ClimbAlike(hash, OnLeft(index, size), Reconstruct(hash, leaf, i, m, path), path, n);
    }
  }

  lemma ClimbAlike(hash: Hash, left: bool, half: Option<(Digest, nat)>, path: seq<Digest>, n: nat)
    requires half.Some? <==> |path| >= n - 1
    requires half.Some? ==> half.value.1 == n - 1 >= 0
    ensures Climb(hash, left, half, path).Some? <==> |path| >= n
    ensures |path| >= n ==> Climb(hash, left, half, path) == Climb(hash, left, half, path[..n])
    ensures |path| >= n ==> Climb(hash, left, half, path).value.1 == n
  {
  }

  lemma TopInputInjective(left: bool, a: Digest, b: Digest, c: Digest, d: Digest)
    requires TopInput(left, a, b) == TopInput(left, c, d)
    ensures a == c && b == d
  {
    var x, y := TopInput(left, a, b), TopInput(left, c, d);
    if left {
      assert a == x[1..33] && c == y[1..33] && b == x[33..] && d == y[33..];
    } else {
      assert b == x[1..33] && d == y[1..33] && a == x[33..] && c == y[33..];
    }
  }

  /** A root is the hash of its topmost node. */
  lemma ReconstructTop(hash: Hash, leaf: Digest, index: nat, size: nat, path: seq<Digest>)
    requires index < size && size >= 2
    requires |path| >= PathLength(index, size)
    ensures var (i, m) := Half(index, size);
            var half := Reconstruct(hash, leaf, i, m, path);
            && half.Some? && half.value.1 == PathLength(i, m) < |path|
            && Reconstruct(hash, leaf, index, size, path)
               == Some((hash(TopInput(OnLeft(index, size), half.value.0, path[half.value.1])), half.value.1 + 1))
  {
    hide Reconstruct, TopInput, PathLength, Split, Half, OnLeft;
    var (i, m) := Half(index, size);
    ReconstructShape(hash, leaf, i, m, path);
    ReconstructUnfold(hash, leaf, index, size, path);
  }

  // ----- Completeness

  function HalfLeaves(index: nat, leaves: seq<Bytes>): (r: seq<Bytes>)
    requires index < |leaves| && |leaves| >= 2
    ensures |r| == Half(index, |leaves|).1 && r[Half(index, |leaves|).0] == leaves[index]
  {
    var k := Split(|leaves|);
    if index < k then leaves[..k] else leaves[k..]
  }

  function Sibling(hash: Hash, index: nat, leaves: seq<Bytes>): Digest
    requires index < |leaves| && |leaves| >= 2
  {
    var k := Split(|leaves|);
    TreeHash(hash, if index < k then leaves[k..] else leaves[..k])
  }

  lemma SpecTop(hash: Hash, index: nat, leaves: seq<Bytes>)
    requires index < |leaves| && |leaves| >= 2
    ensures var (i, half, sibling) :=
              (Half(index, |leaves|).0, HalfLeaves(index, leaves), Sibling(hash, index, leaves));
            && AuditPath(hash, index, leaves) == AuditPath(hash, i, half) + [sibling]
            && TreeHash(hash, leaves) == hash(TopInput(OnLeft(index, |leaves|), TreeHash(hash, half), sibling))
  {
  }

  /** The audit path of a leaf, followed by anything, rebuilds the tree hash. */
  lemma {:induction false} Completeness(hash: Hash, index: nat, leaves: seq<Bytes>, path: seq<Digest>)
    requires index < |leaves|
    requires AuditPath(hash, index, leaves) <= path
    ensures Reconstruct(hash, LeafHash(hash, leaves[index]), index, |leaves|, path)
            == Some((TreeHash(hash, leaves), PathLength(index, |leaves|)))
    decreases |leaves|
  {
    if |leaves| > 1 {
      SpecTop(hash, index, leaves);
      Completeness(hash, Half(index, |leaves|).0, HalfLeaves(index, leaves), path);
      ReconstructTop(hash, LeafHash(hash, leaves[index]), index, |leaves|, path);
    }
  }

  // ----- Binding

  /** The rebuilt half below the root, from a path of exactly the right length. */
  function HalfRoot(hash: Hash, leaf: Digest, index: nat, size: nat, path: seq<Digest>): (r: Digest)
    requires index < size && size >= 2 && |path| == PathLength(index, size)
  {
    var (i, m) := Half(index, size);
    ReconstructShape(hash, leaf, i, m, path[..|path| - 1]);
    Reconstruct(hash, leaf, i, m, path[..|path| - 1]).value.0
  }

  /**
    Walks two proofs for the same position from the root down and returns the inputs of the topmost
    node at which they differ; None when they agree everywhere.
   */
  function Disagreement(
    hash: Hash, leaf: Digest, leaf': Digest, index: nat, size: nat, path: seq<Digest>, path': seq<Digest>)
    : Option<(Bytes, Bytes)>
    requires index < size && |path| == |path'| == PathLength(index, size)
    decreases size
  {
    if size == 1 then None
    else
      var n := |path| - 1;
      var top := TopInput(OnLeft(index, size), HalfRoot(hash, leaf, index, size, path), path[n]);
      var top' := TopInput(OnLeft(index, size), HalfRoot(hash, leaf', index, size, path'), path'[n]);
      if top != top' then Some((top, top'))
      else
        var (i, m) := Half(index, size);
        Disagreement(hash, leaf, leaf', i, m, path[..n], path'[..n])
  }

  lemma RootOfHalf(hash: Hash, leaf: Digest, index: nat, size: nat, path: seq<Digest>)
    requires index < size && size >= 2 && |path| == PathLength(index, size)
    ensures Reconstruct(hash, leaf, index, size, path)
            == Some((hash(TopInput(OnLeft(index, size), HalfRoot(hash, leaf, index, size, path), path[|path| - 1])),
                     |path|))
    ensures var (i, m) := Half(index, size);
            Reconstruct(hash, leaf, i, m, path[..|path| - 1])
            == Some((HalfRoot(hash, leaf, index, size, path), |path| - 1))
  {
    var (i, m) := Half(index, size);
    ReconstructTop(hash, leaf, index, size, path);
    ReconstructShape(hash, leaf, i, m, path);
    ReconstructShape(hash, leaf, i, m, path[..|path| - 1]);
  }

  lemma DisagreementTop(
    hash: Hash, leaf: Digest, leaf': Digest, index: nat, size: nat, path: seq<Digest>, path': seq<Digest>)
    requires index < size && size >= 2 && |path| == |path'| == PathLength(index, size)
    ensures var n, (i, m) := |path| - 1, Half(index, size);
            var top := TopInput(OnLeft(index, size), HalfRoot(hash, leaf, index, size, path), path[n]);
            var top' := TopInput(OnLeft(index, size), HalfRoot(hash, leaf', index, size, path'), path'[n]);
            Disagreement(hash, leaf, leaf', index, size, path, path')
            == if top != top' then Some((top, top'))
               else Disagreement(hash, leaf, leaf', i, m, path[..n], path'[..n])
  {
  }

  lemma SameByLast<T>(a: seq<T>, b: seq<T>, n: nat)
    requires |a| == |b| == n + 1 && a[..n] == b[..n] && a[n] == b[n]
    ensures a == b
  {
    assert a == a[..n] + [a[n]] && b == b[..n] + [b[n]];
  }

  /** Either nothing was found and the two sides agree, or what was found is a collision. */
  predicate Explains(hash: Hash, found: Option<(Bytes, Bytes)>, agree: bool) {
    match found
    case None => agree
    case Some((x, y)) => Collision(hash, x, y)
  }

  /**
    Two proofs for the same position in trees of the same size that rebuild the same root
    carry the same leaf and the same path, or `Disagreement` hands over two colliding node inputs.
   */
  lemma {:induction false} ProofsUnique(
    hash: Hash, leaf: Digest, leaf': Digest, index: nat, size: nat, path: seq<Digest>, path': seq<Digest>)
    requires index < size && |path| == |path'| == PathLength(index, size)
    requires Reconstruct(hash, leaf, index, size, path) == Reconstruct(hash, leaf', index, size, path')
    ensures Explains(hash, Disagreement(hash, leaf, leaf', index, size, path, path'), leaf == leaf' && path == path')
    decreases size
  {
    if size > 1 {
      var n := |path| - 1;
      RootOfHalf(hash, leaf, index, size, path);
      RootOfHalf(hash, leaf', index, size, path');
      DisagreementTop(hash, leaf, leaf', index, size, path, path');
      var a, b := HalfRoot(hash, leaf, index, size, path), HalfRoot(hash, leaf', index, size, path');
      if TopInput(OnLeft(index, size), a, path[n]) == TopInput(OnLeft(index, size), b, path'[n]) {
        TopInputInjective(OnLeft(index, size), a, path[n], b, path'[n]);
        var (i, m) := Half(index, size);
        ProofsUnique(hash, leaf, leaf', i, m, path[..n], path'[..n]);
        if path[..n] == path'[..n] {
          SameByLast(path, path', n);
        }
      }
    }
  }

  /** A proof that rebuilds the tree hash of `leaves` is the audit path of that leaf, or hands over a collision. */
  lemma Binding(hash: Hash, leaf: Digest, index: nat, leaves: seq<Bytes>, path: seq<Digest>)
    requires index < |leaves|
    requires Reconstruct(hash, leaf, index, |leaves|, path) == Some((TreeHash(hash, leaves), |path|))
    ensures |path| == PathLength(index, |leaves|)
    ensures Explains(hash,
                     Disagreement(hash, leaf, LeafHash(hash, leaves[index]), index, |leaves|,
                                  path, AuditPath(hash, index, leaves)),
                     leaf == LeafHash(hash, leaves[index]) && path == AuditPath(hash, index, leaves))
  {
    ReconstructShape(hash, leaf, index, |leaves|, path);
    var audit := AuditPath(hash, index, leaves);
    Completeness(hash, index, leaves, audit);
    ProofsUnique(hash, leaf, LeafHash(hash, leaves[index]), index, |leaves|, path, audit);
  }

  // ----- The tree hash commits to the whole list

  /** Leaves are hashed under a zero octet and nodes under a one, so that no leaf input is ever a node input. */
  lemma DomainsSeparated(data: Bytes, left: Digest, right: Digest)
    ensures |LeafInput(data)| == |data| + 1 && LeafInput(data)[0] == 0x00 && LeafInput(data)[1..] == data
    ensures var n := NodeInput(left, right); |n| == 65 && n[0] == 0x01 && n[1..33] == left && n[33..] == right
    ensures LeafInput(data) != NodeInput(left, right) && LeafInput(data) != [] && NodeInput(left, right) != []
  {
    var n := NodeInput(left, right);
    assert LeafInput(data)[0] == 0 && n[0] == 1;
  }

  /** What the topmost hash of a tree is taken of. */
  function ListInput(hash: Hash, leaves: seq<Bytes>): Bytes {
    if leaves == [] then []
    else if |leaves| == 1 then LeafInput(leaves[0])
    else
      var k := Split(|leaves|);
      NodeInput(TreeHash(hash, leaves[..k]), TreeHash(hash, leaves[k..]))
  }

  /** The first pair of different hash inputs at one place of two trees, left before right. */
  function ListDisagreement(hash: Hash, a: seq<Bytes>, b: seq<Bytes>): Option<(Bytes, Bytes)> {
    var x, y := ListInput(hash, a), ListInput(hash, b);
    if x != y then Some((x, y))
    else if |a| < 2 || |b| < 2 then None
    else
      var i, j := Split(|a|), Split(|b|);
      var left := ListDisagreement(hash, a[..i], b[..j]);
      if left.Some? then left else ListDisagreement(hash, a[i..], b[j..])
  }

  lemma TreeHashInput(hash: Hash, leaves: seq<Bytes>)
    ensures TreeHash(hash, leaves) == hash(ListInput(hash, leaves))
  {
  }

  /** Equal topmost inputs come from trees of one kind, and lists of at most one leaf are then equal. */
  lemma ListInputDecides(hash: Hash, a: seq<Bytes>, b: seq<Bytes>)
    requires ListInput(hash, a) == ListInput(hash, b)
    ensures |a| < 2 || |b| < 2 ==> a == b
    ensures |a| >= 2 && |b| >= 2 ==>
              && TreeHash(hash, a[..Split(|a|)]) == TreeHash(hash, b[..Split(|b|)])
              && TreeHash(hash, a[Split(|a|)..]) == TreeHash(hash, b[Split(|b|)..])
  {
    hide TreeHash, Split, LeafInput, NodeInput;
    KindOf(hash, a);
    KindOf(hash, b);
  }

  /** The topmost input shows the kind of tree, and for at most one leaf the list. */
  lemma KindOf(hash: Hash, a: seq<Bytes>)
    ensures var x := ListInput(hash, a);
            && (x == [] <==> a == [])
            && (|a| == 1 <==> x != [] && x[0] == 0x00) && (|a| == 1 ==> a == [x[1..]])
            && (|a| >= 2 <==> x != [] && x[0] == 0x01)
            && (|a| >= 2 ==> |x| == 65 && x[1..33] == TreeHash(hash, a[..Split(|a|)])
                             && x[33..] == TreeHash(hash, a[Split(|a|)..]))
  {
    hide TreeHash, Split, LeafInput, NodeInput;
    if |a| == 1 {
      DomainsSeparated(a[0], hash([]), hash([]));
    } else if |a| >= 2 {
      DomainsSeparated([], TreeHash(hash, a[..Split(|a|)]), TreeHash(hash, a[Split(|a|)..]));
    }
  }

  /** Leaf lists of any lengths with one tree hash are equal, or the trees hold two different inputs with one hash. */
  lemma {:induction false} TreeHashCommits(hash: Hash, a: seq<Bytes>, b: seq<Bytes>)
    requires TreeHash(hash, a) == TreeHash(hash, b)
    ensures Explains(hash, ListDisagreement(hash, a, b), a == b)
    decreases |a|
  {
    hide TreeHash, ListInput;
    TreeHashInput(hash, a);
    TreeHashInput(hash, b);
    if ListInput(hash, a) == ListInput(hash, b) {
      ListInputDecides(hash, a, b);
      if |a| >= 2 && |b| >= 2 {
        var i, j := Split(|a|), Split(|b|);
        TreeHashCommits(hash, a[..i], b[..j]);
        TreeHashCommits(hash, a[i..], b[j..]);
        assert a == a[..i] + a[i..] && b == b[..j] + b[j..];
      }
    }
  }
}
