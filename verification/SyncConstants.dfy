/** Sync committee rewards: one fused floor division instead of the specification's chain of them. */
module SyncConstants {
  import opened Constants

  const SYNC_COMMITTEE_SIZE := 512
  const SYNC_REWARD_WEIGHT := 2

  /** Per synced slot, from the total increments and the base reward per increment. */
  function SyncReward(t: nat, b: nat): nat {
    t * SYNC_REWARD_WEIGHT * b / (32 * SYNC_COMMITTEE_SIZE * WEIGHT_DENOMINATOR)
  }

  function PerSyncProposerReward(perBlockReward: nat): nat {
    perBlockReward * PROPOSER_WEIGHT / (WEIGHT_DENOMINATOR - PROPOSER_WEIGHT)
  }

  /** `participant_reward` of `process_sync_aggregate` in the Altair beacon-chain specification. */
  function SpecParticipantReward(totalActiveIncrements: nat, baseRewardPerIncrement: nat): nat {
    var totalBaseRewards := baseRewardPerIncrement * totalActiveIncrements;
    var maxParticipantRewards := totalBaseRewards * SYNC_REWARD_WEIGHT / WEIGHT_DENOMINATOR / 32;
    maxParticipantRewards / SYNC_COMMITTEE_SIZE
  }

  /** `proposer_reward` of the same function. */
  function SpecProposerReward(totalActiveIncrements: nat, baseRewardPerIncrement: nat): nat {
    SpecParticipantReward(totalActiveIncrements, baseRewardPerIncrement) * PROPOSER_WEIGHT / (WEIGHT_DENOMINATOR - PROPOSER_WEIGHT)
  }

  /** The product has the same value in either order. */
  lemma Reorder(t: nat, b: nat)
    ensures t * SYNC_REWARD_WEIGHT * b == b * t * SYNC_REWARD_WEIGHT
  {
    assert t * 2 * b == 2 * (t * b) == 2 * (b * t);
  }

  /** Rounding once loses nothing against rounding three times. */
  lemma FusedDivisionMatchesSpec(t: nat, b: nat)
    ensures SyncReward(t, b) == SpecParticipantReward(t, b)
    ensures PerSyncProposerReward(SyncReward(t, b)) == SpecProposerReward(t, b)
  {
    Reorder(t, b);
    var x := b * t * SYNC_REWARD_WEIGHT;
    FloorOfFloors(x);
  }

  lemma FloorOfFloors(x: nat)
    ensures x / (32 * 512 * 64) == x / 64 / 32 / 512
  {
  }
}
