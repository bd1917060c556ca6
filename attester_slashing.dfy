/**
  The attester-slashing repository of the beacon database. `HasAll` answers whether every given
  validator index is already covered by some stored slashing; the stored slashings (the
  repository's `values()`) are an input list.
*/
module AttesterSlashingRepository {
  import opened Types

  datatype IndexedAttestation = IndexedAttestation(attestingIndices: seq<ValidatorIndex>, data: Bytes, signature: Bytes)

  datatype AttesterSlashing = AttesterSlashing(attestation1: IndexedAttestation, attestation2: IndexedAttestation)

  /** `index` attests in one of the two attestations of `slashing`. */
  predicate InSlashing(slashing: AttesterSlashing, index: ValidatorIndex) {
    index in slashing.attestation1.attestingIndices || index in slashing.attestation2.attestingIndices
  }

  /** Some stored slashing covers `index`. */
  predicate Covered(stored: seq<AttesterSlashing>, index: ValidatorIndex) {
    exists s :: 0 <= s < |stored| && InSlashing(stored[s], index)
  }

  /** Every requested index is covered by some stored slashing. */
  predicate CoversAll(stored: seq<AttesterSlashing>, attesterIndices: seq<ValidatorIndex>) {
    forall k :: 0 <= k < |attesterIndices| ==> Covered(stored, attesterIndices[k])
  }

  /**
    Collects every attesting index of every stored slashing into a set, then checks the request
    against it, returning false at the first index that is missing.
  */
  method HasAll(stored: seq<AttesterSlashing>, attesterIndices: seq<ValidatorIndex>) returns (r: bool)
    ensures r <==> CoversAll(stored, attesterIndices)
    ensures |attesterIndices| == 0 ==> r
    ensures |stored| == 0 && |attesterIndices| > 0 ==> !r
  {
    var indices: set<ValidatorIndex> := {};
    var s := 0;
    while s < |stored|
      invariant 0 <= s <= |stored|
      invariant forall v :: v in indices <==> Covered(stored[..s], v)
    {
      var slashing := stored[s];
      var i := 0;
      while i < |slashing.attestation1.attestingIndices|
        invariant 0 <= i <= |slashing.attestation1.attestingIndices|
        invariant forall v :: v in indices <==> Covered(stored[..s], v) || v in slashing.attestation1.attestingIndices[..i]
      {
        indices := indices + {slashing.attestation1.attestingIndices[i]};
        i := i + 1;
      }
      assert slashing.attestation1.attestingIndices[..i] == slashing.attestation1.attestingIndices;
      var j := 0;
      while j < |slashing.attestation2.attestingIndices|
        invariant 0 <= j <= |slashing.attestation2.attestingIndices|
        invariant forall v :: v in indices <==> Covered(stored[..s], v) || v in slashing.attestation1.attestingIndices
                                                || v in slashing.attestation2.attestingIndices[..j]
      {
        indices := indices + {slashing.attestation2.attestingIndices[j]};
        j := j + 1;
      }
      assert slashing.attestation2.attestingIndices[..j] == slashing.attestation2.attestingIndices;
      CoveredExtend(stored, s);
      s := s + 1;
    }
    assert stored[..s] == stored;

    var k := 0;
    while k < |attesterIndices|
      invariant 0 <= k <= |attesterIndices|
      invariant forall m :: 0 <= m < k ==> Covered(stored, attesterIndices[m])
    {
      if attesterIndices[k] !in indices {
        return false;
      }
      k := k + 1;
    }
    assert |attesterIndices| > 0 ==> Covered(stored, attesterIndices[0]);
    return true;
  }

  /** Covering by one more slashing. */
  lemma CoveredExtend(stored: seq<AttesterSlashing>, s: nat)
    requires s < |stored|
    ensures forall v :: Covered(stored[..s + 1], v) <==> Covered(stored[..s], v) || InSlashing(stored[s], v)
  {
    forall v
      ensures Covered(stored[..s + 1], v) <==> Covered(stored[..s], v) || InSlashing(stored[s], v)
    {
      if Covered(stored[..s + 1], v) {
        var t :| 0 <= t < s + 1 && InSlashing(stored[..s + 1][t], v);
        if t < s { assert stored[..s][t] == stored[t]; }
      }
      if Covered(stored[..s], v) {
        var t :| 0 <= t < s && InSlashing(stored[..s][t], v);
        assert stored[..s + 1][t] == stored[t];
      }
      if InSlashing(stored[s], v) {
        assert stored[..s + 1][s] == stored[s];
      }
    }
  }

  /** Only which indices are requested matters, not their order or repetitions. */
  lemma CoversAllDependsOnlyOnTheSet(stored: seq<AttesterSlashing>, a: seq<ValidatorIndex>, b: seq<ValidatorIndex>)
    requires forall v :: v in a <==> v in b
    ensures CoversAll(stored, a) <==> CoversAll(stored, b)
  {
    if CoversAll(stored, a) {
      forall k | 0 <= k < |b| ensures Covered(stored, b[k]) {
        assert b[k] in a;
      }
    }
    if CoversAll(stored, b) {
      forall k | 0 <= k < |a| ensures Covered(stored, a[k]) {
        assert a[k] in b;
      }
    }
  }
}
