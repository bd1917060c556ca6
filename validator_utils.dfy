/**
  Helpers of the validator API: the attestation subnet of a committee, the pubkeys of a list of
  validator indices, and the choice between a locally built (engine) block and a builder block.
*/
module ValidatorUtils {
  import opened Results
  import opened Types

  // Mainnet preset values: the minimal preset is not modelled.
  const SLOTS_PER_EPOCH: nat := 32
  const ATTESTATION_SUBNET_COUNT: nat := 64
  const MAX_COMMITTEES_PER_SLOT: nat := 64
  /** 2**64 - 1: a boost factor that always selects the builder. */
  const MAX_BUILDER_BOOST_FACTOR: int := 0xFFFF_FFFF_FFFF_FFFF

  // ---------------------------------------------------------------------------------------------
  // Attestation subnet
  // ---------------------------------------------------------------------------------------------

  function EpochAtSlot(slot: nat): nat {
    slot / SLOTS_PER_EPOCH
  }

  function StartSlotAtEpoch(epoch: nat): nat {
    epoch * SLOTS_PER_EPOCH
  }

  /** Slot minus the first slot of its epoch, as the state-transition helper computes it. */
  function SlotsSinceEpochStart(slot: nat): (r: nat)
    ensures r == slot % SLOTS_PER_EPOCH
  {
    slot - StartSlotAtEpoch(EpochAtSlot(slot))
  }

  /**
    `compute_subnet_for_attestation` of the phase0 consensus specification (validator guide),
    the reference the implementation below follows.
  */
  function ComputeSubnetForAttestation(committeesPerSlot: nat, slot: nat, committeeIndex: nat): nat {
    (committeesPerSlot * (slot % SLOTS_PER_EPOCH) + committeeIndex) % ATTESTATION_SUBNET_COUNT
  }

  function ComputeSubnetForCommitteesAtSlot(slot: nat, committeesAtSlot: nat, committeeIndex: nat): (subnet: nat)
    ensures subnet < ATTESTATION_SUBNET_COUNT
    ensures subnet == ComputeSubnetForAttestation(committeesAtSlot, slot, committeeIndex)
  {
    var slotsSinceEpochStart := SlotsSinceEpochStart(slot);
    var committeesSinceEpochStart := committeesAtSlot * slotsSinceEpochStart;
    (committeesSinceEpochStart + committeeIndex) % ATTESTATION_SUBNET_COUNT
  }

  /** Two different committees of the same slot are never put on the same subnet. */
  lemma SubnetsOfOneSlotAreDistinct(slot: nat, committeesAtSlot: nat, i: nat, j: nat)
    requires committeesAtSlot <= MAX_COMMITTEES_PER_SLOT
    requires i < committeesAtSlot && j < committeesAtSlot && i != j
    ensures ComputeSubnetForCommitteesAtSlot(slot, committeesAtSlot, i)
         != ComputeSubnetForCommitteesAtSlot(slot, committeesAtSlot, j)
  {
    var base := committeesAtSlot * SlotsSinceEpochStart(slot);
    if i < j { OffsetsBelowCountDiffer(base, i, j); } else { OffsetsBelowCountDiffer(base, j, i); }
  }

  lemma OffsetsBelowCountDiffer(x: nat, i: nat, j: nat)
    requires i < j < ATTESTATION_SUBNET_COUNT
    ensures (x + i) % ATTESTATION_SUBNET_COUNT != (x + j) % ATTESTATION_SUBNET_COUNT
  {
    var q1, q2 := (x + i) / ATTESTATION_SUBNET_COUNT, (x + j) / ATTESTATION_SUBNET_COUNT;
    assert x + i == 64 * q1 + (x + i) % 64;
    assert x + j == 64 * q2 + (x + j) % 64;
  }

  /** The subnet of a committee repeats every epoch: it depends on the slot only through its position in the epoch. */
  lemma {:induction false} SubnetRepeatsEveryEpoch(slot: nat, committeesAtSlot: nat, committeeIndex: nat, epochs: nat)
    ensures ComputeSubnetForCommitteesAtSlot(slot + epochs * SLOTS_PER_EPOCH, committeesAtSlot, committeeIndex)
         == ComputeSubnetForCommitteesAtSlot(slot, committeesAtSlot, committeeIndex)
  {
    if epochs > 0 {
      var s := slot + (epochs - 1) * SLOTS_PER_EPOCH;
      SubnetRepeatsEveryEpoch(slot, committeesAtSlot, committeeIndex, epochs - 1);
      assert slot + epochs * SLOTS_PER_EPOCH == s + SLOTS_PER_EPOCH;
      NextEpochSamePosition(s);
    }
  }

  lemma NextEpochSamePosition(s: nat)
    ensures SlotsSinceEpochStart(s + SLOTS_PER_EPOCH) == SlotsSinceEpochStart(s)
  {
    assert (s + 32) % 32 == s % 32;
  }

  // ---------------------------------------------------------------------------------------------
  // Pubkeys of validator indices
  // ---------------------------------------------------------------------------------------------

  datatype PubkeyLookupError = ValidatorIndexTooHigh(index: ValidatorIndex, validatorCount: nat)

  /**
    The pubkeys of `indexes`, in order; fails on the first index that is not below the
    validator count, before any other work is done for it.
  */
  method GetPubkeysForIndices(validators: seq<Validator>, indexes: seq<ValidatorIndex>)
    returns (r: Result<seq<BLSPubkey>, PubkeyLookupError>)
    ensures r.Ok? <==> forall k :: 0 <= k < |indexes| ==> indexes[k] < |validators|
    ensures r.Ok? ==> |r.value| == |indexes|
    ensures r.Ok? ==> forall k :: 0 <= k < |indexes| ==> r.value[k] == validators[indexes[k]].pubkey
    ensures r.Err? ==> exists k :: 0 <= k < |indexes| && indexes[k] >= |validators|
                         && r.error == ValidatorIndexTooHigh(indexes[k], |validators|)
                         && forall j :: 0 <= j < k ==> indexes[j] < |validators|
  {
    var validatorsLen := |validators|;
    var pubkeys: seq<BLSPubkey> := [];
    var i := 0;
    while i < |indexes|
      invariant 0 <= i <= |indexes|
      invariant forall j :: 0 <= j < i ==> indexes[j] < validatorsLen
      invariant |pubkeys| == i
      invariant forall j :: 0 <= j < i ==> pubkeys[j] == validators[indexes[j]].pubkey
    {
      var index := indexes[i];
      if index >= validatorsLen {
        return Err(ValidatorIndexTooHigh(index, validatorsLen));
      }
      var validator := validators[index];
      pubkeys := pubkeys + [validator.pubkey];
      i := i + 1;
    }
    return Ok(pubkeys);
  }

  // ---------------------------------------------------------------------------------------------
  // Block production source
  // ---------------------------------------------------------------------------------------------

  datatype BuilderSelection = ExecutionAlways | ExecutionOnly | Default | MaxProfit | BuilderAlways | BuilderOnly

  datatype EngineBlockSelectionReason = EngineReasonBlockValue | EnginePreferred
  datatype BuilderBlockSelectionReason = BuilderReasonBlockValue | BuilderPreferred

  /** `{source: engine, reason}` or `{source: builder, reason}`. */
  datatype BlockSelectionResult =
    | EngineSource(engineReason: EngineBlockSelectionReason)
    | BuilderSource(builderReason: BuilderBlockSelectionReason)

  /** Division of bigints: the quotient is truncated toward zero. */
  function BigIntDiv(a: int, b: int): int
    requires b > 0
  {
    if a >= 0 then a / b else -((-a) / b)
  }

  function SelectBlockProductionSource(
    builderSelection: BuilderSelection,
    engineBlockValue: int,
    builderBlockValue: int,
    builderBoostFactor: int): BlockSelectionResult
  {
    match builderSelection
    case ExecutionAlways | ExecutionOnly => EngineSource(EnginePreferred)
    case Default | MaxProfit =>
      if builderBoostFactor == 0 then EngineSource(EnginePreferred)
      else if builderBoostFactor == MAX_BUILDER_BOOST_FACTOR then BuilderSource(BuilderPreferred)
      else if engineBlockValue >= BigIntDiv(builderBlockValue * builderBoostFactor, 100) then
        EngineSource(EngineReasonBlockValue)
      else BuilderSource(BuilderReasonBlockValue)
    case BuilderAlways | BuilderOnly => BuilderSource(BuilderPreferred)
  }

  /** The fixed policies ignore the block values and the boost factor. */
  lemma FixedPoliciesIgnoreValues(sel: BuilderSelection, e1: int, b1: int, f1: int, e2: int, b2: int, f2: int)
    requires sel in {ExecutionAlways, ExecutionOnly, BuilderAlways, BuilderOnly}
    ensures SelectBlockProductionSource(sel, e1, b1, f1) == SelectBlockProductionSource(sel, e2, b2, f2)
    ensures SelectBlockProductionSource(sel, e1, b1, f1)
         == if sel in {ExecutionAlways, ExecutionOnly} then EngineSource(EnginePreferred) else BuilderSource(BuilderPreferred)
  {
  }

  /**
    For Default and MaxProfit the two extreme boosts decide alone: 0 keeps the engine block and
    2**64 - 1 takes the builder block, whatever the values; every other boost decides by value.
  */
  lemma BoostExtremesDecideAlone(sel: BuilderSelection, engineValue: int, builderValue: int, boost: int)
    requires sel == Default || sel == MaxProfit
    ensures boost == 0 ==> SelectBlockProductionSource(sel, engineValue, builderValue, boost) == EngineSource(EnginePreferred)
    ensures boost == MAX_BUILDER_BOOST_FACTOR
        ==> SelectBlockProductionSource(sel, engineValue, builderValue, boost) == BuilderSource(BuilderPreferred)
    ensures SelectBlockProductionSource(sel, engineValue, builderValue, boost) in {EngineSource(EnginePreferred), BuilderSource(BuilderPreferred)}
        <==> boost == 0 || boost == MAX_BUILDER_BOOST_FACTOR
  {
  }

  /**
    For Default and MaxProfit with a boost strictly between 0 and the maximum and non-negative
    values, the engine wins exactly when 100 times its value is more than the boosted builder
    value minus 100 (the division rounds the boosted value down).
  */
  lemma BoostedComparison(sel: BuilderSelection, engineValue: nat, builderValue: nat, boost: nat)
    requires sel == Default || sel == MaxProfit
    requires 0 < boost < MAX_BUILDER_BOOST_FACTOR
    ensures SelectBlockProductionSource(sel, engineValue, builderValue, boost).EngineSource?
        <==> 100 * engineValue > builderValue * boost - 100
    ensures SelectBlockProductionSource(sel, engineValue, builderValue, boost)
         == if 100 * engineValue > builderValue * boost - 100 then EngineSource(EngineReasonBlockValue)
            else BuilderSource(BuilderReasonBlockValue)
  {
    var p := builderValue * boost;
    var q := p / 100;
    assert p == 100 * q + p % 100;
    assert engineValue >= q <==> 100 * engineValue > p - 100;
  }

  /** With a boost of 100 and non-negative values, the higher value wins and the engine wins ties. */
  lemma UnboostedPicksHigherValue(sel: BuilderSelection, engineValue: nat, builderValue: nat)
    requires sel == Default || sel == MaxProfit
    ensures SelectBlockProductionSource(sel, engineValue, builderValue, 100).EngineSource?
        <==> engineValue >= builderValue
  {
    assert (builderValue * 100) / 100 == builderValue;
  }

  /** Raising the engine block value never turns an engine choice into a builder choice. */
  lemma EngineChoiceMonotone(sel: BuilderSelection, engineValue: int, higher: int, builderValue: int, boost: int)
    requires engineValue <= higher
    requires SelectBlockProductionSource(sel, engineValue, builderValue, boost).EngineSource?
    ensures SelectBlockProductionSource(sel, higher, builderValue, boost).EngineSource?
  {
  }
}
