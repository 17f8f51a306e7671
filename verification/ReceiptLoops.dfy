/** The loops inside receipt normalisation, each proved against the function that specifies it. */
module ReceiptLoops {
  import opened Basics
  import opened Text
  import opened Receipt

  /** `_normalize_scope_set` of receipts: fold, refuse, keep first occurrences in order. */
  method NormalizeReasonCodes(values: seq<string>) returns (r: Result<seq<string>>)
    ensures r == ReasonCodes(values)
  {
    hide Token;
    var seen: set<string> := {};
    var out: seq<string> := [];
    for k := 0 to |values|
      invariant ReasonCodes(values[..k]) == Ok(out)
      invariant forall x :: x in seen <==> x in out
    {
      var normalized := Token(values[k]);
      assert values[..k + 1][..k] == values[..k];
      if normalized.Err? {
        ReasonCodesFail(values, k + 1, normalized.error);
        return Err(normalized.error);
      }
      if normalized.value !in seen {
        seen := seen + {normalized.value};
        out := out + [normalized.value];
      }
    }
    assert values[..|values|] == values;
    return Ok(out);
  }

  lemma {:induction false} ReasonCodesFail(values: seq<string>, k: nat, error: Error)
    requires k <= |values| && ReasonCodes(values[..k]) == Err(error)
    ensures ReasonCodes(values) == Err(error)
    decreases |values|
  {
    hide Token;
    if k == |values| {
      assert values[..k] == values;
    } else {
      var front := values[..|values| - 1];
      assert front[..k] == values[..k];
      ReasonCodesFail(front, k, error);
    }
  }

  /** `_normalize_external_attestations` */
  method NormalizeExternalAttestations(values: seq<Attestation>) returns (r: Result<seq<Attestation>>)
    ensures r == NormalizeAttestations(values)
  {
    hide NormalizeAttestation, NormalizeAttestations;
    var out: seq<Attestation> := [];
    assert values[0..] == values;
    PrependedNone(NormalizeAttestations(values), []);
    for k := 0 to |values|
      invariant NormalizeAttestations(values) == Prepended(out, NormalizeAttestations(values[k..]))
    {
      var item := NormalizeAttestation(values[k]);
      AttestationStep(values, k);
      if item.Err? {
        return Err(item.error);
      }
      PrependedStep(out, item.value, NormalizeAttestations(values[k + 1..]));
      out := out + [item.value];
    }
    NoAttestations(values[|values|..]);
    PrependedNone(Ok([]), out);
    return Ok(out);
  }

  function Prepended(out: seq<Attestation>, rest: Result<seq<Attestation>>): Result<seq<Attestation>> {
    if rest.Err? then rest else Ok(out + rest.value)
  }

  lemma PrependedNone(rest: Result<seq<Attestation>>, out: seq<Attestation>)
    ensures Prepended([], rest) == rest && Prepended(out, Ok([])) == Ok(out)
  {
    if rest.Ok? {
      assert [] + rest.value == rest.value;
    }
    assert out + [] == out;
  }

  lemma PrependedStep(out: seq<Attestation>, x: Attestation, rest: Result<seq<Attestation>>)
    ensures Prepended(out, Prepended([x], rest)) == Prepended(out + [x], rest)
  {
    if rest.Ok? {
      assert out + ([x] + rest.value) == (out + [x]) + rest.value;
    }
  }

  lemma AttestationStep(values: seq<Attestation>, k: nat)
    requires k < |values|
    ensures NormalizeAttestations(values[k..]) ==
            var item := NormalizeAttestation(values[k]);
            if item.Err? then Err(item.error) else Prepended([item.value], NormalizeAttestations(values[k + 1..]))
  {
    hide NormalizeAttestation;
    assert values[k..][1..] == values[k + 1..];
  }

  lemma NoAttestations(values: seq<Attestation>)
    requires values == []
    ensures NormalizeAttestations(values) == Ok([])
  {
  }

  /** The search of `_verify_mandate_authorization_consistency`. */
  method FindMandateAttestation(digest: string, attestations: seq<Attestation>) returns (matched: Option<Attestation>)
    ensures matched == MatchingAttestation(digest, attestations)
    ensures matched.None? <==> forall i | 0 <= i < |attestations| :: !IsMandateAttestation(digest, attestations[i])
    ensures matched.Some? ==> matched.value in attestations && IsMandateAttestation(digest, matched.value)
  {
    hide Strip, StripLower, MANDATE_ATTESTATION_KIND;
    for k := 0 to |attestations|
      invariant MatchingAttestation(digest, attestations) == MatchingAttestation(digest, attestations[k..])
      invariant forall i | 0 <= i < k :: !IsMandateAttestation(digest, attestations[i])
    {
      var entry := attestations[k];
      assert attestations[k..][0] == entry && attestations[k..][1..] == attestations[k + 1..];
      if Strip(entry.kind) != MANDATE_ATTESTATION_KIND {
        continue;
      }
      if StripLower(entry.digest) != digest {
        continue;
      }
      return Some(entry);
    }
    return None;
  }

  predicate IsMandateAttestation(digest: string, a: Attestation) {
    Strip(a.kind) == MANDATE_ATTESTATION_KIND && StripLower(a.digest) == digest
  }
}
