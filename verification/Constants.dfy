/** Quantities of the consensus layer that several parts of the program share. */
module Constants {
  const SLOTS_PER_EPOCH := 32
  const SLOT_TIME := 12
  const GWEI_PER_INCREMENT := 1_000_000_000

  const WEIGHT_DENOMINATOR := 64
  const PROPOSER_WEIGHT := 8
}
