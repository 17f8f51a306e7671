/**
  Hash-chained receipts: `continuity_from_prior`, `verify_continuity_chain`, and what an accepted chain
  commits to.
 */
module Continuity {
  import opened Basics
  import opened Text
  import opened Time
  import opened Ordering
  import opened Receipt
  import opened ReceiptBytes
  import opened Chain

  function LinkOf(n: Receipt): Link
    requires n.continuity.Some?
  {
    var c := n.continuity.value;
    Link(c.runId, c.sequenceNumber, c.prevDigest, n.messageDigestHex)
  }

  /** The link of a normalised receipt, in terms of the receipt it came from. */
  predicate CarriesLink(n: Receipt, r: Receipt) {
    && (r.continuity.Some? <==> n.continuity.Some?)
    && (n.continuity.Some? ==> Normal(LinkOf(n)) && CarriesFields(n.continuity.value, r.continuity.value))
  }

  predicate CarriesFields(n: Continuity, c: Continuity) {
    && n.prevDigest != Some("") && n.sequenceNumber == c.sequenceNumber && n.runId == StripLower(c.runId)
       && IsUuid(n.runId)
    && (n.sequenceNumber > 1 ==> n.prevDigest == Some(StripLower(OptText(c.prevDigest))))
  }

  lemma NormalizedContinuity(hash: Hash, calendar: Calendar, r: Receipt)
    requires Normalize(hash, calendar, r).Ok?
    ensures CarriesLink(Normalize(hash, calendar, r).value, r)
    ensures Normalize(hash, calendar, r).value.messageDigestHex == StripLower(r.messageDigestHex)
  {
    hide Envelope, Core, Parts, ReceiptIdMatches, StripLower, Normal;
    var e := Envelope(calendar, r).value;
    var c := Core(calendar, e).value;
    EnvelopeKeepsAttestations(calendar, r);
    EnvelopeDigest(calendar, r);
    CoreKeepsLink(calendar, e);
    PartsLink(calendar, c);
  }

  lemma EnvelopeDigest(calendar: Calendar, r: Receipt)
    requires Envelope(calendar, r).Ok?
    ensures Envelope(calendar, r).value.messageDigestHex == StripLower(r.messageDigestHex)
  {
    hide Strip, StripLower, Nonblank, Stamp, RECEIPT_KIND, RECEIPT_VERSION, SIGNING_ALGORITHM;
  }

  lemma CoreKeepsLink(calendar: Calendar, r: Receipt)
    requires Core(calendar, r).Ok?
    ensures Core(calendar, r).value.continuity == r.continuity
            && Core(calendar, r).value.messageDigestHex == r.messageDigestHex
  {
    hide NormalizeAuthorization, NormalizeReferences, NormalizeAttestations, NormalizeOutcome, MandateConsistent;
  }

  lemma PartsLink(calendar: Calendar, r: Receipt)
    requires Parts(calendar, r).Ok?
    ensures CarriesLink(Parts(calendar, r).value, r)
    ensures Parts(calendar, r).value.messageDigestHex == r.messageDigestHex
  {
    hide OptExecution, OptMerchant, OptEvidence, OptPayment, OptOperator, NormalizeContinuity, CarriesFields;
    if r.continuity.Some? {
      NormalContinuity(r.continuity.value, OptExecution(calendar, r.scope, r.execution).value);
    }
  }

  lemma NormalContinuity(c: Continuity, execution: Option<Execution>)
    requires NormalizeContinuity(c, execution).Ok?
    ensures CarriesFields(NormalizeContinuity(c, execution).value, c)
    ensures var n := NormalizeContinuity(c, execution).value;
            n.sequenceNumber >= 1 && (n.sequenceNumber == 1 <==> n.prevDigest.None?)
  {
    hide StripLower, IsUuid;
  }

  /** The link of a receipt, after normalisation; a receipt without continuity is skipped unread. */
  function Entry(hash: Hash, calendar: Calendar, r: Receipt): (e: Result<Option<Link>>)
    ensures e.Ok? ==> (e.value.Some? <==> r.continuity.Some?) && (e.value.Some? ==> Normal(e.value.value))
  {
    hide Normalize;
    if r.continuity.None? then Ok(None)
    else
      var n :- Normalize(hash, calendar, r);
      NormalizedContinuity(hash, calendar, r);
      Ok(Some(LinkOf(n)))
  }

  function Entries(hash: Hash, calendar: Calendar): (f: Receipt -> Result<Option<Link>>)
    ensures forall r :: f(r) == Entry(hash, calendar, r)
  {
    r => Entry(hash, calendar, r)
  }

  function Links(hash: Hash, calendar: Calendar, receipts: seq<Receipt>): seq<Link> {
    Kept(Entries(hash, calendar), receipts)
  }

  /** Every receipt with continuity normalises, and the links form chains. */
  predicate Accepts(hash: Hash, calendar: Calendar, receipts: seq<Receipt>) {
    AllPass(Entries(hash, calendar), receipts) && WellLinked(Links(hash, calendar, receipts))
  }

  lemma {:induction false} LinksNormal(hash: Hash, calendar: Calendar, receipts: seq<Receipt>)
    ensures AllNormal(Links(hash, calendar, receipts))
  {
    hide Entry, Normal;
    if receipts != [] {
      LinksNormal(hash, calendar, receipts[..|receipts| - 1]);
    }
  }

  lemma NoLinks(hash: Hash, calendar: Calendar, receipts: seq<Receipt>)
    requires receipts == []
    ensures Links(hash, calendar, receipts) == []
  {
  }

  lemma LinksStep(hash: Hash, calendar: Calendar, receipts: seq<Receipt>, k: nat)
    requires k < |receipts|
    ensures Links(hash, calendar, receipts[..k + 1])
            == Links(hash, calendar, receipts[..k]) + Item(Entries(hash, calendar), receipts[k])
  {
    hide Entries, Item;
    assert receipts[..k + 1][..k] == receipts[..k];
  }

  /** `verify_continuity_chain`: collect, sort in place, then walk with the last link of every run. */
  method VerifyContinuityChain(hash: Hash, calendar: Calendar, receipts: seq<Receipt>) returns (accepted: bool)
    ensures accepted <==> Accepts(hash, calendar, receipts)
    ensures accepted <==> AllPass(Entries(hash, calendar), receipts) && ChainedRuns(Links(hash, calendar, receipts))
  {
    hide Entry, WellLinked, ChainedRuns, Links, CheckSorted, Sort, Continues;
    NoLinks(hash, calendar, receipts[..0]);
    var linked: seq<Link> := [];
    var k := 0;
    while k < |receipts|
      invariant 0 <= k <= |receipts|
      invariant forall i | 0 <= i < k :: Entry(hash, calendar, receipts[i]).Ok?
      invariant Links(hash, calendar, receipts[..k]) == linked
    {
      LinksStep(hash, calendar, receipts, k);
      var entry := Entry(hash, calendar, receipts[k]);
      if entry.Err? {
        return false;
      }
      if entry.value.Some? {
        linked := linked + [entry.value.value];
      }
      k := k + 1;
    }
    assert receipts[..k] == receipts;
    LinksNormal(hash, calendar, receipts);
    Decided(linked);
    linked := Sort(LinkLeq, linked);
    accepted := Walk(linked);
  }

  lemma Decided(s: seq<Link>)
    requires AllNormal(s)
    ensures CheckSorted(map[], Sort(LinkLeq, s)) <==> WellLinked(s)
    ensures WellLinked(s) <==> ChainedRuns(s)
  {
    hide WellLinked, ChainedRuns, CheckSorted, AllNormal, Sort;
    SortedCheck(s);
    if WellLinked(s) {
      WellLinkedIsChained(s);
    }
    if ChainedRuns(s) {
      ChainedIsWellLinked(s);
    }
  }

  /** The second loop of `verify_continuity_chain`. */
  method Walk(linked: seq<Link>) returns (accepted: bool)
    ensures accepted <==> CheckSorted(map[], linked)
  {
    hide Continues;
    var prevByRun: map<string, Link> := map[];
    var k := 0;
    while k < |linked|
      invariant 0 <= k <= |linked|
      invariant CheckSorted(map[], linked) == CheckSorted(prevByRun, linked[k..])
    {
      var item := linked[k];
      assert linked[k..][0] == item && linked[k..][1..] == linked[k + 1..];
      if !Continues(prevByRun, item) {
        return false;
      }
      prevByRun := prevByRun[item.runId := item];
      k := k + 1;
    }
    return true;
  }

  /** Permuting the input does not change the verdict. */
  lemma AcceptanceIgnoresOrder(hash: Hash, calendar: Calendar, a: seq<Receipt>, b: seq<Receipt>)
    requires multiset(a) == multiset(b)
    ensures Accepts(hash, calendar, a) <==> Accepts(hash, calendar, b)
  {
    hide Entries, AllPass, Kept, WellLinked;
    var f := Entries(hash, calendar);
    KeptPermuted(f, a, b);
    if Accepts(hash, calendar, a) {
      PassPermuted(f, a, b);
      WellLinkedPermuted(Kept(f, a), Kept(f, b));
    }
    if Accepts(hash, calendar, b) {
      PassPermuted(f, b, a);
      WellLinkedPermuted(Kept(f, b), Kept(f, a));
    }
  }

  // ----- Extending a run

  function PriorRun(runId: string, prior: Receipt): string {
    if prior.continuity.Some? && Strip(prior.continuity.value.runId) != "" then StripLower(prior.continuity.value.runId)
    else if prior.execution.Some? && Strip(prior.execution.value.runId) != ""
      then StripLower(prior.execution.value.runId)
    else runId
  }

  /** `continuity_from_prior` */
  function ContinuityFromPrior(runId: string, prior: Option<Receipt>): Result<Continuity> {
    var run :- Uuid(runId);
    if prior.None? then Ok(Continuity(None, 1, run))
    else
      :- Require(PriorRun(run, prior.value) == run, Mismatch);
      var prev :- Hex64(prior.value.messageDigestHex);
      var number := if prior.value.continuity.Some? && prior.value.continuity.value.sequenceNumber > 0
                    then prior.value.continuity.value.sequenceNumber + 1 else 2;
      Ok(Continuity(Some(prev), number, run))
  }

  /** Every receipt but the first carries the link built from the one before it. */
  predicate Extends(runId: string, receipts: seq<Receipt>) {
    forall i | 1 <= i < |receipts| ::
      && receipts[i].continuity.Some?
      && ContinuityFromPrior(runId, Some(receipts[i - 1])) == Ok(receipts[i].continuity.value)
  }

  /** What `continuity_from_prior` puts in the next link. */
  lemma PriorLink(runId: string, prior: Option<Receipt>, c: Continuity)
    requires ContinuityFromPrior(runId, prior) == Ok(c)
    ensures c.runId == StripLower(runId)
    ensures prior.None? ==> c.sequenceNumber == 1
    ensures prior.Some? ==> c.prevDigest == Some(StripLower(prior.value.messageDigestHex))
    ensures prior.Some? && prior.value.continuity.Some? && prior.value.continuity.value.sequenceNumber > 0 ==>
              c.sequenceNumber == prior.value.continuity.value.sequenceNumber + 1
    ensures prior.Some? && (prior.value.continuity.None? || prior.value.continuity.value.sequenceNumber <= 0) ==>
              c.sequenceNumber == 2
    ensures prior.Some? && prior.value.continuity.Some? && Strip(prior.value.continuity.value.runId) != "" ==>
              StripLower(prior.value.continuity.value.runId) == StripLower(runId)
  {
    hide Strip, StripLower, IsUuid, IsHex64;
  }

  /** The run a prior receipt names: in its continuity, or else in its execution. */
  predicate NamesRun(prior: Receipt, runId: string) {
    || (prior.continuity.Some? && Strip(prior.continuity.value.runId) != ""
        && StripLower(prior.continuity.value.runId) == runId)
    || (&& (prior.continuity.None? || Strip(prior.continuity.value.runId) == "")
        && (prior.execution.None? || Strip(prior.execution.value.runId) == ""
            || StripLower(prior.execution.value.runId) == runId))
  }

  /**
    Exactly when and what link is built: the folded run id and, after a prior receipt that names this run or none,
    its folded digest and the next number, where a missing or nonpositive number counts as 1.
   */
  lemma PriorLinkExactly(runId: string, prior: Option<Receipt>, c: Continuity)
    ensures ContinuityFromPrior(runId, prior) == Ok(c) <==>
            && c.runId == StripLower(runId) && IsUuid(c.runId)
            && match prior
               case None => c.sequenceNumber == 1 && c.prevDigest == None
               case Some(p) =>
                 && NamesRun(p, c.runId)
                 && c.prevDigest == Some(StripLower(p.messageDigestHex)) && IsHex64(StripLower(p.messageDigestHex))
                 && c.sequenceNumber == if p.continuity.None? || p.continuity.value.sequenceNumber < 1 then 2
                                        else 1 + p.continuity.value.sequenceNumber
  {
    hide Strip, StripLower, IsUuid, IsHex64;
  }

  /** The link a receipt contributes carries its own number, run, prev and digest, folded. */
  lemma EntryFields(hash: Hash, calendar: Calendar, r: Receipt)
    requires Entry(hash, calendar, r).Ok? && r.continuity.Some?
    ensures var c, x := r.continuity.value, Entry(hash, calendar, r).value.value;
            && x.number == c.sequenceNumber && x.runId == StripLower(c.runId)
               && x.digest == StripLower(r.messageDigestHex)
            && (c.sequenceNumber > 1 ==> x.prev == Some(StripLower(OptText(c.prevDigest))))
    ensures Strip(r.continuity.value.runId) != ""
  {
    hide Normalize, Strip, StripLower, IsUuid;
    NormalizedContinuity(hash, calendar, r);
    NotBlank(r.continuity.value.runId);
  }

  lemma NotBlank(s: string)
    requires IsUuid(StripLower(s))
    ensures Strip(s) != ""
  {
    hide Strip;
  }

  /** The receipt starts its run. */
  predicate OpensRun(r: Receipt) {
    r.continuity.Some? && r.continuity.value.sequenceNumber == 1
  }

  /** Run and number of the link of receipt i, when the first receipt opens the run. */
  lemma {:induction false} ExtendedNumber(hash: Hash, calendar: Calendar, runId: string, receipts: seq<Receipt>, i: nat)
    requires Extends(runId, receipts) && i < |receipts| && OpensRun(receipts[0])
    requires Entry(hash, calendar, receipts[0]).Ok?
    ensures receipts[i].continuity.Some? && receipts[i].continuity.value.sequenceNumber == i + 1
    ensures StripLower(receipts[i].continuity.value.runId) == StripLower(receipts[0].continuity.value.runId)
    ensures i > 0 ==> receipts[i].continuity.value.prevDigest == Some(StripLower(receipts[i - 1].messageDigestHex))
  {
    hide Strip, StripLower, ContinuityFromPrior, Entry;
    if i > 0 {
      PriorLink(runId, Some(receipts[i - 1]), receipts[i].continuity.value);
      ExtendedNumber(hash, calendar, runId, receipts, i - 1);
      PriorLink(runId, Some(receipts[0]), receipts[1].continuity.value);
      EntryFields(hash, calendar, receipts[0]);
      FoldTwice(runId);
    }
  }

  lemma ExtendedEntry(hash: Hash, calendar: Calendar, runId: string, receipts: seq<Receipt>, i: nat)
    requires Extends(runId, receipts) && i < |receipts| && OpensRun(receipts[0])
    requires Entry(hash, calendar, receipts[0]).Ok? && Entry(hash, calendar, receipts[i]).Ok?
    ensures Entry(hash, calendar, receipts[i]).value.Some?
    ensures var x := Entry(hash, calendar, receipts[i]).value.value;
            && x.number == i + 1 && x.runId == StripLower(receipts[0].continuity.value.runId)
            && x.digest == StripLower(receipts[i].messageDigestHex)
            && (i > 0 ==> x.prev == Some(StripLower(receipts[i - 1].messageDigestHex)))
  {
    hide Entry, Strip, StripLower, Extends;
    ExtendedNumber(hash, calendar, runId, receipts, i);
    EntryFields(hash, calendar, receipts[i]);
    if i > 0 {
      FoldTwice(receipts[i - 1].messageDigestHex);
    }
  }

  lemma {:induction false} ExtendedLinks(hash: Hash, calendar: Calendar, runId: string, receipts: seq<Receipt>, k: nat)
    requires receipts != [] && OpensRun(receipts[0]) && Extends(runId, receipts) && k <= |receipts|
    requires AllPass(Entries(hash, calendar), receipts)
    ensures var s := Links(hash, calendar, receipts[..k]);
            && |s| == k && Grown(StripLower(receipts[0].continuity.value.runId), s)
            && (k > 0 ==> s[k - 1].digest == StripLower(receipts[k - 1].messageDigestHex))
  {
    hide Entry, StripLower, Extends;
    if k > 0 {
      hide Links;
      ExtendedLinks(hash, calendar, runId, receipts, k - 1);
      LinksStep(hash, calendar, receipts, k - 1);
      assert Entries(hash, calendar)(receipts[k - 1]).Ok? && Entries(hash, calendar)(receipts[0]).Ok?;
      ExtendedEntry(hash, calendar, runId, receipts, k - 1);
    }
  }

  /** A run grown link by link from a receipt that opens it is accepted, at every length. */
  lemma OpenedRunAccepted(hash: Hash, calendar: Calendar, runId: string, receipts: seq<Receipt>)
    requires receipts != [] && OpensRun(receipts[0])
    requires Extends(runId, receipts) && AllPass(Entries(hash, calendar), receipts)
    ensures Accepts(hash, calendar, receipts) && |Links(hash, calendar, receipts)| == |receipts|
  {
    hide Entries, Links, Extends, Grown, WellLinked, AllPass;
    ExtendedLinks(hash, calendar, runId, receipts, |receipts|);
    assert receipts[..|receipts|] == receipts;
    GrownWellLinked(StripLower(receipts[0].continuity.value.runId), Links(hash, calendar, receipts));
  }

  lemma {:induction false} LinkOrigin(hash: Hash, calendar: Calendar, receipts: seq<Receipt>, x: Link) returns (i: nat)
    requires x in Links(hash, calendar, receipts)
    ensures i < |receipts| && Entry(hash, calendar, receipts[i]) == Ok(Some(x))
  {
    hide Entry;
    var n := |receipts| - 1;
    if x in Links(hash, calendar, receipts[..n]) {
      i := LinkOrigin(hash, calendar, receipts[..n], x);
    } else {
      i := n;
    }
  }

  lemma {:induction false} LinkPresent(hash: Hash, calendar: Calendar, receipts: seq<Receipt>, i: nat)
    requires i < |receipts| && Entry(hash, calendar, receipts[i]).Ok? && receipts[i].continuity.Some?
    ensures Entry(hash, calendar, receipts[i]).value.value in Links(hash, calendar, receipts)
  {
    hide Entry;
    var n := |receipts| - 1;
    if i < n {
      LinkPresent(hash, calendar, receipts[..n], i);
    }
  }

  /** A chain that is accepted and not empty holds a receipt that opens a run. */
  lemma AcceptedIsOpened(hash: Hash, calendar: Calendar, receipts: seq<Receipt>, i: nat) returns (j: nat)
    requires Accepts(hash, calendar, receipts) && i < |receipts| && receipts[i].continuity.Some?
    ensures j < |receipts| && OpensRun(receipts[j])
  {
    hide Entry, StripLower, Links, WellLinked, AllNormal;
    var s := Links(hash, calendar, receipts);
    assert Entries(hash, calendar)(receipts[i]).Ok?;
    LinkPresent(hash, calendar, receipts, i);
    LinksNormal(hash, calendar, receipts);
    var x := Entry(hash, calendar, receipts[i]).value.value;
    assert HasNumber(s, x.runId, x.number);
    NoGap(s, x.runId, x.number, 1);
    var a :| 0 <= a < |s| && s[a].runId == x.runId && s[a].number == 1;
    j := LinkOrigin(hash, calendar, receipts, s[a]);
    EntryFields(hash, calendar, receipts[j]);
  }

  /**
    A run grown with `continuity_from_prior` is accepted if and only if its first receipt carries continuity with
    number 1, or it is a lone receipt without continuity.
   */
  lemma ExtendedRunAcceptedExactly(hash: Hash, calendar: Calendar, runId: string, receipts: seq<Receipt>)
    requires receipts != [] && Extends(runId, receipts) && AllPass(Entries(hash, calendar), receipts)
    ensures Accepts(hash, calendar, receipts) <==>
            OpensRun(receipts[0]) || (|receipts| == 1 && receipts[0].continuity.None?)
  {
    hide Entries, Links, WellLinked, AllPass, ContinuityFromPrior;
    if OpensRun(receipts[0]) {
      OpenedRunAccepted(hash, calendar, runId, receipts);
    } else if |receipts| == 1 && receipts[0].continuity.None? {
      LoneUnlinked(hash, calendar, receipts);
    } else if Accepts(hash, calendar, receipts) {
      var j := AcceptedIsOpened(hash, calendar, receipts, if receipts[0].continuity.Some? then 0 else 1);
      PriorLink(runId, Some(receipts[j - 1]), receipts[j].continuity.value);
    }
  }

  lemma LoneUnlinked(hash: Hash, calendar: Calendar, receipts: seq<Receipt>)
    requires |receipts| == 1 && receipts[0].continuity.None?
    ensures Accepts(hash, calendar, receipts)
  {
    hide Normalize, WellLinked;
    assert receipts[..0] == [] && receipts[..1] == receipts;
    LinksStep(hash, calendar, receipts, 0);
    NoLinks(hash, calendar, receipts[..0]);
    EmptyWellLinked();
  }

  /** The first link built with no prior opens the run, so runs grown from it are accepted. */
  lemma ExtendedRunAccepted(hash: Hash, calendar: Calendar, runId: string, receipts: seq<Receipt>)
    requires receipts != [] && receipts[0].continuity.Some?
    requires ContinuityFromPrior(runId, None) == Ok(receipts[0].continuity.value)
    requires Extends(runId, receipts) && AllPass(Entries(hash, calendar), receipts)
    ensures Accepts(hash, calendar, receipts)
  {
    hide Entries, Extends, AllPass, ContinuityFromPrior, Accepts;
    PriorLink(runId, None, receipts[0].continuity.value);
    ExtendedRunAcceptedExactly(hash, calendar, runId, receipts);
  }
}
