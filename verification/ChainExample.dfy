/** An unlinked receipt whose extension by `continuity_from_prior` the chain check refuses. */
module ChainExample {
  import opened Basics
  import opened Text
  import opened Time
  import opened Receipt
  import opened Chain
  import opened Runs = Continuity
  import opened ReceiptExample

  /** The example with a digest, without continuity. */
  function Unlinked(f: Filler): Receipt {
    Example(f).(messageDigestHex := f.digest)
  }

  /** A receipt that carries the link built from it. */
  function Extension(f: Filler): Receipt {
    Example(f).(continuity := Some(Continuity(Some(f.digest), 2, f.uuid)))
  }

  lemma ExtensionNormalizes(hash: Hash, calendar: Calendar, f: Filler)
    requires f.Valid(calendar)
    ensures Normalize(hash, calendar, Extension(f)).Ok?
  {
    hide Envelope, Core, Parts, ReceiptIdMatches, IsUuid, IsHex64, Example;
    ExampleNormalizes(hash, calendar, f);
    ExampleUnlinked(f);
    var c := Some(Continuity(Some(f.digest), 2, f.uuid));
    EnvelopeWithContinuity(calendar, Example(f), c);
    var e := Envelope(calendar, Example(f)).value;
    CoreWithContinuity(calendar, e, c);
    ExampleScope(calendar, f);
    ExampleLink(f);
    PartsWithContinuity(calendar, Core(calendar, e).value, c.value);
    IdWithContinuity(hash, Normalize(hash, calendar, Example(f)).value, c);
  }

  lemma ExampleUnlinked(f: Filler)
    ensures Example(f).continuity.None? && Example(f).execution.None?
  {
  }

  lemma ExampleScope(calendar: Calendar, f: Filler)
    requires f.Valid(calendar) && Envelope(calendar, Example(f)).Ok?
             && Core(calendar, Envelope(calendar, Example(f)).value).Ok?
    ensures Core(calendar, Envelope(calendar, Example(f)).value).value.scope != "action"
  {
    hide Envelope, Core, Example;
    EnvelopeOk(calendar, f);
    CoreKeeps(calendar, Envelope(calendar, Example(f)).value);
    Literals();
  }

  lemma ExampleLink(f: Filler)
    requires IsUuid(f.uuid) && IsHex64(f.digest)
    ensures NormalizeContinuity(Continuity(Some(f.digest), 2, f.uuid), None)
            == Ok(Continuity(Some(f.digest), 2, f.uuid))
  {
    hide StripLower, IsUuid, IsHex64, Uuid;
    Shapes(f);
    DigestFixed(f.digest);
  }

  lemma DigestFixed(d: string)
    requires IsHex64(d)
    ensures StripLower(d) == d && d != ""
  {
    HexFolded(d);
    FoldedFixed(d);
  }

  lemma EnvelopeWithContinuity(calendar: Calendar, r: Receipt, c: Option<Continuity>)
    requires Envelope(calendar, r).Ok?
    ensures Envelope(calendar, r.(continuity := c)) == Ok(Envelope(calendar, r).value.(continuity := c))
  {
    hide Strip, StripLower, Nonblank, Stamp, RECEIPT_KIND, RECEIPT_VERSION, SIGNING_ALGORITHM;
  }

  lemma CoreWithContinuity(calendar: Calendar, r: Receipt, c: Option<Continuity>)
    requires Core(calendar, r).Ok?
    ensures Core(calendar, r.(continuity := c)) == Ok(Core(calendar, r).value.(continuity := c))
  {
    hide NormalizeAuthorization, NormalizeReferences, NormalizeAttestations, NormalizeOutcome, MandateConsistent;
  }

  lemma PartsWithContinuity(calendar: Calendar, r: Receipt, c: Continuity)
    requires Parts(calendar, r).Ok? && r.scope != "action" && NormalizeContinuity(c, None) == Ok(c)
    ensures Parts(calendar, r.(continuity := Some(c))) == Ok(Parts(calendar, r).value.(continuity := Some(c)))
  {
    hide OptMerchant, OptEvidence, OptPayment, OptOperator, NormalizeContinuity;
  }

  lemma IdWithContinuity(hash: Hash, n: Receipt, c: Option<Continuity>)
    requires ReceiptIdMatches(hash, n)
    ensures ReceiptIdMatches(hash, n.(continuity := c))
  {
    hide ActionReceiptId, IsUuid, StripLower;
  }

  /** `continuity_from_prior` links the extension to the unlinked receipt, and the two are refused together. */
  lemma UnlinkedPriorRefused(hash: Hash, calendar: Calendar, f: Filler)
    requires f.Valid(calendar)
    ensures ContinuityFromPrior(f.uuid, Some(Unlinked(f))) == Ok(Extension(f).continuity.value)
    ensures AllPass(Entries(hash, calendar), [Unlinked(f), Extension(f)])
    ensures !Accepts(hash, calendar, [Unlinked(f), Extension(f)])
  {
    hide Normalize, Accepts, IsUuid, IsHex64, StripLower;
    Shapes(f);
    ExtensionNormalizes(hash, calendar, f);
    ExtendedRunAcceptedExactly(hash, calendar, f.uuid, [Unlinked(f), Extension(f)]);
  }
}
