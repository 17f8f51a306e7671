/**
  What the digest of the last receipt of a run commits to: every receipt of the run, place by place, unless
  a hash collision is exhibited.
 */
module Commitment {
  import opened Basics
  import opened Text
  import opened Time
  import opened Receipt
  import opened ReceiptBytes
  import opened ReceiptUnambiguous
  import opened ReceiptVerify
  import opened Chain
  import opened Continuity

  /** Normalised receipts whose digest is recomputed from their signing bytes. */
  predicate DigestVerified(hash: Hash, s: seq<Receipt>) {
    forall i | 0 <= i < |s| ::
      && s[i].continuity.Some? && s[i].continuity.value.prevDigest != Some("")
      && s[i].messageDigestHex == Hex(hash(CanonicalBytes(s[i])))
  }

  function LinksOf(s: seq<Receipt>): (r: seq<Link>)
    requires forall i | 0 <= i < |s| :: s[i].continuity.Some?
    ensures |r| == |s| && forall i :: 0 <= i < |s| ==> r[i] == LinkOf(s[i])
  {
    seq(|s|, i requires 0 <= i < |s| => LinkOf(s[i]))
  }

  /** Two receipts, one from each run, whose different signing bytes hash alike. */
  predicate CollidingReceipts(hash: Hash, a: seq<Receipt>, b: seq<Receipt>) {
    exists i, j | 0 <= i < |a| && 0 <= j < |b| :: Collision(hash, CanonicalBytes(a[i]), CanonicalBytes(b[j]))
  }

  /** `b` has a receipt at the place of `x`, with the same signing bytes. */
  predicate Mirrored(x: Receipt, b: seq<Receipt>) {
    exists j | 0 <= j < |b| :: b[j].continuity == x.continuity && CanonicalBytes(b[j]) == CanonicalBytes(x)
  }

  /** Everything in the run of `a[i]` up to `a[i]` is mirrored in `b`. */
  predicate HistoryMirrored(a: seq<Receipt>, i: nat, b: seq<Receipt>)
    requires i < |a| && forall k | 0 <= k < |a| :: a[k].continuity.Some?
  {
    forall k | 0 <= k < |a| && a[k].continuity.value.runId == a[i].continuity.value.runId
               && a[k].continuity.value.sequenceNumber <= a[i].continuity.value.sequenceNumber :: Mirrored(a[k], b)
  }

  lemma SameDigestSameBytes(hash: Hash, a: seq<Receipt>, i: nat, b: seq<Receipt>, j: nat)
    requires DigestVerified(hash, a) && DigestVerified(hash, b) && i < |a| && j < |b|
    requires a[i].messageDigestHex == b[j].messageDigestHex
    ensures || CollidingReceipts(hash, a, b)
            || (CanonicalBytes(a[i]) == CanonicalBytes(b[j]) && a[i].continuity == b[j].continuity)
  {
    hide CanonicalBytes, Hex;
    HexInjective(hash(CanonicalBytes(a[i])), hash(CanonicalBytes(b[j])));
    if CanonicalBytes(a[i]) == CanonicalBytes(b[j]) {
      BytesBindContinuity(a[i], b[j]);
    } else {
      assert Collision(hash, CanonicalBytes(a[i]), CanonicalBytes(b[j]));
    }
  }

  lemma {:induction false} HeadCommits(hash: Hash, a: seq<Receipt>, i: nat, b: seq<Receipt>, j: nat)
    requires DigestVerified(hash, a) && DigestVerified(hash, b) && i < |a| && j < |b|
    requires AllNormal(LinksOf(a)) && WellLinked(LinksOf(a)) && WellLinked(LinksOf(b))
    requires a[i].messageDigestHex == b[j].messageDigestHex
    ensures CollidingReceipts(hash, a, b) || (a[i].continuity == b[j].continuity && HistoryMirrored(a, i, b))
    decreases a[i].continuity.value.sequenceNumber
  {
    hide CanonicalBytes, Hex, AllNormal;
    SameDigestSameBytes(hash, a, i, b, j);
    if !CollidingReceipts(hash, a, b) {
      hide CollidingReceipts;
      var s, t := LinksOf(a), LinksOf(b);
      NormalAt(s, i);
      assert Anchored(s[i], s) && Anchored(t[j], t);
      assert Mirrored(a[i], b);
      if s[i].number > 1 {
        var i' :| 0 <= i' < |s| && Follows(s[i], s[i']);
        var j' :| 0 <= j' < |t| && Follows(t[j], t[j']);
        NormalAt(s, i');
        HeadCommits(hash, a, i', b, j');
        Grow(a, i, i', b);
      } else {
        Base(a, i, b);
      }
    }
  }

  lemma NormalAt(s: seq<Link>, i: nat)
    requires AllNormal(s) && i < |s|
    ensures Normal(s[i])
  {
  }

  lemma Grow(a: seq<Receipt>, i: nat, i': nat, b: seq<Receipt>)
    requires i < |a| && i' < |a| && forall k | 0 <= k < |a| :: a[k].continuity.Some?
    requires DistinctPlaces(LinksOf(a)) && Follows(LinkOf(a[i]), LinkOf(a[i']))
    requires Mirrored(a[i], b) && HistoryMirrored(a, i', b)
    ensures HistoryMirrored(a, i, b)
  {
    hide Mirrored;
    forall k | 0 <= k < |a| && a[k].continuity.value.runId == a[i].continuity.value.runId
               && a[k].continuity.value.sequenceNumber <= a[i].continuity.value.sequenceNumber
      ensures Mirrored(a[k], b)
    {
      if a[k].continuity.value.sequenceNumber == a[i].continuity.value.sequenceNumber {
        assert SamePlace(LinksOf(a)[k], LinksOf(a)[i]);
      }
    }
  }

  lemma Base(a: seq<Receipt>, i: nat, b: seq<Receipt>)
    requires i < |a| && forall k | 0 <= k < |a| :: a[k].continuity.Some?
    requires AllNormal(LinksOf(a)) && DistinctPlaces(LinksOf(a)) && a[i].continuity.value.sequenceNumber == 1
    requires Mirrored(a[i], b)
    ensures HistoryMirrored(a, i, b)
  {
    hide Mirrored, AllNormal;
    forall k | 0 <= k < |a| && a[k].continuity.value.runId == a[i].continuity.value.runId
               && a[k].continuity.value.sequenceNumber <= a[i].continuity.value.sequenceNumber
      ensures Mirrored(a[k], b)
    {
      NormalAt(LinksOf(a), k);
      assert SamePlace(LinksOf(a)[k], LinksOf(a)[i]);
    }
  }

  // ----- Runs of verified receipts

  /** `n` is what verifying and normalising each receipt of `s` returns. */
  predicate VerifiedAs(hash: Hash, scheme: SignatureScheme, calendar: Calendar, s: seq<Receipt>, n: seq<Receipt>) {
    && |n| == |s|
    && forall i | 0 <= i < |s| :: s[i].continuity.Some? && Verify(hash, scheme, calendar, s[i], []) == Ok(n[i])
  }

  lemma VerifiedReceipt(hash: Hash, scheme: SignatureScheme, calendar: Calendar, r: Receipt, n: Receipt)
    requires r.continuity.Some? && Verify(hash, scheme, calendar, r, []) == Ok(n)
    ensures n.continuity.Some? && Normal(LinkOf(n)) && n.continuity.value.prevDigest != Some("")
    ensures n.messageDigestHex == Hex(hash(CanonicalBytes(n)))
    ensures Entry(hash, calendar, r) == Ok(Some(LinkOf(n)))
  {
    hide Verify, Normalize, CanonicalBytes, Hex, Normal;
    VerifiedDigest(hash, scheme, calendar, r, n);
    NormalizedContinuity(hash, calendar, r);
  }

  lemma VerifiedDigest(hash: Hash, scheme: SignatureScheme, calendar: Calendar, r: Receipt, n: Receipt)
    requires Verify(hash, scheme, calendar, r, []) == Ok(n)
    ensures Normalize(hash, calendar, r) == Ok(n) && n.messageDigestHex == Hex(hash(CanonicalBytes(n)))
  {
    hide Normalize, CanonicalBytes, Hex, AllowsKey, SignatureValid, OperatorValid;
  }

  lemma VerifiedRun(hash: Hash, scheme: SignatureScheme, calendar: Calendar, s: seq<Receipt>, n: seq<Receipt>)
    requires VerifiedAs(hash, scheme, calendar, s, n)
    ensures DigestVerified(hash, n) && AllNormal(LinksOf(n))
  {
    hide Verify, CanonicalBytes, Hex, Normal, Entry;
    forall i | 0 <= i < |s|
      ensures n[i].continuity.Some? && n[i].continuity.value.prevDigest != Some("") && Normal(LinkOf(n[i]))
      ensures n[i].messageDigestHex == Hex(hash(CanonicalBytes(n[i])))
    {
      VerifiedReceipt(hash, scheme, calendar, s[i], n[i]);
    }
  }

  lemma {:induction false} VerifiedLinks(hash: Hash, scheme: SignatureScheme, calendar: Calendar, s: seq<Receipt>,
                                         n: seq<Receipt>, k: nat)
    requires VerifiedAs(hash, scheme, calendar, s, n) && k <= |s| && DigestVerified(hash, n)
    ensures Links(hash, calendar, s[..k]) == LinksOf(n)[..k]
  {
    hide Verify, CanonicalBytes, Hex, Entry, Normal;
    if k > 0 {
      hide Links;
      VerifiedLinks(hash, scheme, calendar, s, n, k - 1);
      LinksStep(hash, calendar, s, k - 1);
      VerifiedReceipt(hash, scheme, calendar, s[k - 1], n[k - 1]);
      assert Item(Entries(hash, calendar), s[k - 1]) == [LinkOf(n[k - 1])];
    }
  }

  /** All of one run, and the receipt at `i` carries the highest number. */
  predicate RunWithHead(n: seq<Receipt>, run: string, i: nat) {
    && i < |n| && n[i].continuity.Some?
    && forall k | 0 <= k < |n| ::
         && n[k].continuity.Some? && n[k].continuity.value.runId == run
         && n[k].continuity.value.sequenceNumber <= n[i].continuity.value.sequenceNumber
  }

  lemma HeadCounts(n: seq<Receipt>, run: string, i: nat)
    requires RunWithHead(n, run, i) && AllNormal(LinksOf(n)) && WellLinked(LinksOf(n))
    ensures |n| == n[i].continuity.value.sequenceNumber
  {
    hide WellLinked;
    var s := LinksOf(n);
    var m := RunNumbered(s, run);
    assert HasNumber(s, run, s[i].number);
    assert NumberedTo(s, run, m);
    if m > s[i].number {
      assert HasNumber(s, run, m);
    }
    Places(s);
    RunLength(s, run, m);
  }

  lemma Places(s: seq<Link>)
    requires WellLinked(s)
    ensures DistinctPlaces(s)
  {
  }

  /** Every receipt of `a` has its twin, place and signing bytes, in `b`. */
  predicate AllMirrored(a: seq<Receipt>, b: seq<Receipt>) {
    forall k | 0 <= k < |a| :: Mirrored(a[k], b)
  }

  lemma HeadMirrors(hash: Hash, run: string, a: seq<Receipt>, i: nat, b: seq<Receipt>, j: nat)
    requires DigestVerified(hash, a) && DigestVerified(hash, b) && RunWithHead(a, run, i) && RunWithHead(b, run, j)
    requires AllNormal(LinksOf(a)) && WellLinked(LinksOf(a)) && WellLinked(LinksOf(b))
    requires a[i].messageDigestHex == b[j].messageDigestHex
    ensures CollidingReceipts(hash, a, b) || (a[i].continuity == b[j].continuity && AllMirrored(a, b))
  {
    hide CanonicalBytes, Hex, AllNormal, WellLinked, Mirrored, CollidingReceipts;
    HeadCommits(hash, a, i, b, j);
  }

  lemma CollidingSymmetric(hash: Hash, a: seq<Receipt>, b: seq<Receipt>)
    requires CollidingReceipts(hash, a, b)
    ensures CollidingReceipts(hash, b, a)
  {
    hide CanonicalBytes;
    var i, j :| 0 <= i < |a| && 0 <= j < |b| && Collision(hash, CanonicalBytes(a[i]), CanonicalBytes(b[j]));
    assert Collision(hash, CanonicalBytes(b[j]), CanonicalBytes(a[i]));
  }

  /**
    Two sets of receipts of one run, each receipt verified, each set accepted by the chain check, in any order
    of presentation. If their heads carry the same digest, the sets have the same size and agree place by place
    in their signing bytes, or two receipts exhibit a hash collision.
   */
  lemma HeadDigestCommits(hash: Hash, scheme: SignatureScheme, calendar: Calendar, run: string,
                          a: seq<Receipt>, na: seq<Receipt>, i: nat, b: seq<Receipt>, nb: seq<Receipt>, j: nat)
    requires VerifiedAs(hash, scheme, calendar, a, na) && Accepts(hash, calendar, a) && RunWithHead(na, run, i)
    requires VerifiedAs(hash, scheme, calendar, b, nb) && Accepts(hash, calendar, b) && RunWithHead(nb, run, j)
    requires na[i].messageDigestHex == nb[j].messageDigestHex
    ensures CollidingReceipts(hash, na, nb) || (|a| == |b| && AllMirrored(na, nb) && AllMirrored(nb, na))
  {
    hide VerifiedAs, DigestVerified, AllNormal, WellLinked, CollidingReceipts, AllMirrored, Links, AllPass, RunWithHead;
    Prepared(hash, scheme, calendar, a, na);
    Prepared(hash, scheme, calendar, b, nb);
    Ready(na, run, i);
    Ready(nb, run, j);
    HeadMirrors(hash, run, na, i, nb, j);
    HeadMirrors(hash, run, nb, j, na, i);
    HeadCounts(na, run, i);
    HeadCounts(nb, run, j);
    if CollidingReceipts(hash, nb, na) {
      CollidingSymmetric(hash, nb, na);
    }
  }

  lemma Ready(n: seq<Receipt>, run: string, i: nat)
    requires RunWithHead(n, run, i)
    ensures i < |n| && forall k | 0 <= k < |n| :: n[k].continuity.Some?
  {
  }

  lemma Prepared(hash: Hash, scheme: SignatureScheme, calendar: Calendar, s: seq<Receipt>, n: seq<Receipt>)
    requires VerifiedAs(hash, scheme, calendar, s, n) && Accepts(hash, calendar, s)
    ensures |n| == |s| && DigestVerified(hash, n) && AllNormal(LinksOf(n)) && WellLinked(LinksOf(n))
  {
    hide Verify, AllNormal, WellLinked, Links, CanonicalBytes, Hex, AllPass;
    VerifiedRun(hash, scheme, calendar, s, n);
    VerifiedLinks(hash, scheme, calendar, s, n, |s|);
    assert s[..|s|] == s && LinksOf(n)[..|s|] == LinksOf(n);
  }
}
