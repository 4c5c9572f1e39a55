# Verified model of the validator-monitoring engine

Per epoch, the monitor collects what every validator of the beacon chain did, credits attestations, sync signatures,
proposals and withdrawals, derives rewards by the Altair rules, and stores the result epoch by epoch. This project
models that engine in Dafny and proves what it is for.

* `Summary` is the shared store all writers go through, with the rules of lodash `merge`: an undefined field never
  overwrites, Maps are replaced, arrays are merged index by index.
* `AttestationConstants`, `Attestation`, `AttestationAccounting`, `AttestationMeaning`, `ProposalRewards`: overlapping
  aggregates, before and after Electra, are folded into per-validator flags; each flag is credited to the first aggregate
  that earns it. `Attestation` holds the imperative service, proved against the functions `Resolve`, `IncludeAll`,
  `RunAggregate` and `RunAll`; the others prove what those functions mean, down to the roots and bits in the blocks.
* `SyncConstants`, `Sync`, `SyncMeaning`, `DutyMetadata`, `WholeBalances`, `AttestationRewards`, `IntegerSqrt`,
  `ValidatorState`, `Propose`, `Withdrawals`: the other checks, the metadata fills and the reward calculations, with their
  refinement of the consensus specification.
* `Steps`, `Interleaving`, `Round` and `RoundState`: the five checks as strands of atomic steps on one event loop, over
  the store and the committee map they share; the result does not depend on how they mix, and the laws above hold of
  whole rounds, from the blocks, committees and validators as fetched.
* `Chain`, `BlockCache`, `ConsensusProvider`, `NodeFallback`: finding blocks around missed slots, through a cache and
  over several nodes.
* `EpochProcessing`: which epoch is processed next, under late database mutations and stops at any point.
* `Queries`, `Retrier`, `Alerts`: two aggregation queries, the retry loop, and alert throttling.
* `Constants`, `Options`, `Sums`, `Arithmetic` are helpers.

Conventions. An exception of the program is an `ok` result that is false, an outcome, or a `Failed` reply. Iteration over
a Map is iteration over its keys in an arbitrary order. JavaScript numbers are mathematical integers, or reals where the
program multiplies fractions. An epoch has 32 slots and a slot lasts 12 seconds, as the program hard-codes in places.
What the program fetches (states, blocks, committees, duties, node answers, the clock) is a parameter. Where a method
has a loop over an in-place structure, it is proved against a function, and the lemmas speak about that function.

Properties that do not hold as one might expect are stated with concrete inputs and the exact condition:

* which vote a stored row shows: `AttestationRewards.RowShowsPreviousVote`, with `RowMixesVotes` and `RowKeepsCurrentVote`;
* when a reward equals the specification's: `AttestationRewards.RewardExactIf`, with `RewardOneShort`;
* when a block request finds a block: `NodeFallback.FindsExactlyIf` and `MissingExactlyIf`, with `LaggingNodeHidesBlock`;
* whether epochs start at the configured one on an empty table: `EpochProcessing.FirstRow`, with `StopSkipsStart` and
  `SkippedStartMayReturn`.

## Model

| member | source | states |
|---|---|---|
| Summary.SummaryService.Set | src/duty/summary/summary.service.ts:98-101 | `set` initialises the epoch and merges the given fields into the validator's record, leaving every other record, epoch and all metadata as they were |
| Summary.SummaryService.SetMeta | src/duty/summary/summary.service.ts:91-94 | `setMeta` merges the mentioned parts of the metadata and touches no record |
| Summary.SummaryService.Get | src/duty/summary/summary.service.ts:87-104 | reading returns the stored record if any and at most initialises the epoch |
| Summary.SummaryService.Init | src/duty/summary/summary.service.ts:115-138 | a new epoch has no record, zero totals, and an empty list and zero reward for each of the 64 slots of its window |
| Summary.InitialSlots | src/duty/summary/summary.service.ts:115-138 | the slots known to a new epoch are those of the epoch and of the one before it, each with an empty list and no reward; it has no record and no block to sync |
| Summary.SummaryService.Clear | src/duty/summary/summary.service.ts:111-113 | clearing forgets every epoch |
| Summary.AppendedSeatSurvivesMerge | src/duty/summary/summary.service.ts:98-101 | rewriting a record with one more sync seat at the end of the list keeps all earlier seats and appends exactly that one, although arrays merge index by index |
| Summary.MergedAt | src/duty/summary/summary.service.ts:98-101 | lists of seats merge element by element: the new value where there is one, the old one beyond |
| Summary.PatchesCompose | src/duty/summary/summary.service.ts:98-101 | two patches of a record in a row are one merged patch, and an empty patch changes nothing |
| Summary.TouchIsInvisible | src/duty/summary/summary.service.ts:87-89 | the lazy initialisation that every access performs is invisible to all later reads |
| AttestationConstants.FlagsMatchSpec | src/duty/attestation/attestation.constants.ts:7-35 | the three flags are set exactly as `get_attestation_participation_flag_indices` of the Altair specification (target rule of Deneb) sets them |
| AttestationConstants.HeadFlagImpliesOthers | src/duty/attestation/attestation.constants.ts:20-35 | an attestation that earns the head flag earns source and target |
| Attestation.AttestingIsZip | src/duty/attestation/attestation.service.ts:268-273 | a validator is selected exactly if it faces a set bit when the bitfield, from the committee's offset on, is laid beside the committee |
| Attestation.AttestingConcat | src/duty/attestation/attestation.service.ts:112-125 | walking committees one after the other with a running offset selects the same validators, in order, as walking their concatenation once |
| Attestation.TrailingBitsNeverMatter | src/duty/attestation/attestation.service.ts:268-272 | bits outside the concatenated committees, such as the delimiter of an SSZ Bitlist, have no influence |
| Attestation.TrueBitsAreTheSetBits | src/duty/attestation/attestation.service.ts:152-201 | the committee indexes of an Electra attestation are the set positions of its committee bits, each once, ascending (`get_committee_indices`, EIP-7549) |
| Attestation.AttestationService.IncludeValidator | src/duty/attestation/attestation.service.ts:274-294 | one inclusion extends exactly the lists of flags that are earned and were not set before, and writes the record with flags or-ed and the first delay kept |
| Attestation.AttestationService.ProcessAttestationCommittee | src/duty/attestation/attestation.service.ts:255-296 | includes exactly the members facing a set bit, in committee order, and reads each position from the offset on once |
| Attestation.AttestationService.ProcessAttestation | src/duty/attestation/attestation.service.ts:93-138 | an attestation is processed as one aggregate over the concatenation of its committees, with the flags its roots earn, and its lists are filed under the including block; every position up to the sum of the committee sizes is read once and none beyond; it fails exactly if a committee or the block is unknown. What the aggregate is in terms of the block is `AttestationMeaning` |
| Attestation.AttestationService.GetProcessedAttestations | src/duty/attestation/attestation.service.ts:152-201 | collects the attestations of the blocks of two epochs in slot order, skipping slots without a block |
| Attestation.CollectedIsAll | src/duty/attestation/attestation.service.ts:160-200 | collected is every attestation of every block of the range, with its own fields, and nothing else |
| Attestation.CollectedAt | src/duty/attestation/attestation.service.ts:160-200 | attestations are collected in order and once each: the n-th of a block follows all those of earlier blocks and the n before it in its own |
| Attestation.CollectedArePlaced | src/duty/summary/summary.service.ts:124-128 | in an initialised epoch every collected attestation has a list to be filed under |
| Attestation.RelevantAreKept | src/duty/attestation/attestation.service.ts:75-79 | skipped are exactly the attestations of slots before the previous epoch |
| Attestation.CommitteesAreFound | src/duty/attestation/attestation.service.ts:227-240 | a committee is found under its own index and slot |
| Attestation.AttestationService.GetAttestationCommittees | src/duty/attestation/attestation.service.ts:203-253 | the committee map holds the committees of both epochs, and every member is marked as not having attested in its epoch |
| Attestation.AttestationService.Check | src/duty/attestation/attestation.service.ts:65-91 | the whole check succeeds exactly if every relevant attestation names known committees and a known block, and then has the effect of folding their aggregates in block order |
| AttestationAccounting.FlagMeaning | src/duty/attestation/attestation.service.ts:274-294 | after any run a flag is set exactly if it was set before or some aggregate including the validator earned it |
| AttestationAccounting.CreditGoesToFirst | src/duty/attestation/attestation.service.ts:276-284 | an aggregate lists a validator for a flag once if it is the first of all aggregates to earn that flag for that target epoch, and never otherwise, however aggregates overlap or repeat members |
| AttestationAccounting.CreditedExactlyOnce | src/duty/attestation/attestation.service.ts:133-137 | over a run each (target epoch, validator, flag) is credited exactly once if the flag ends true and never otherwise |
| AttestationAccounting.StoredLists | src/duty/attestation/attestation.service.ts:133-137 | the lists stored for a block are the credits of the aggregates included in it, in order |
| AttestationAccounting.DelayIsLeast | src/duty/attestation/attestation.service.ts:286-294 | the recorded inclusion delay is the least over all inclusions of the vote |
| AttestationAccounting.BlockOrderIsDelayOrder | src/duty/attestation/attestation.service.ts:172-197 | for attestations the chain accepts, and one committee per validator and epoch, visiting blocks in ascending order visits the inclusions of each vote by ascending positive delay |
| AttestationAccounting.HeadImpliesOthersAfterCheck | src/duty/attestation/attestation.service.ts:291-293 | in every summary a check can produce the head flag implies source and target |
| AttestationMeaning.AttestingIsFacing | src/duty/attestation/attestation.service.ts:112-125 | walking the named committees selects exactly the members whose bit, counted over all committees before, is set |
| AttestationMeaning.CommitteesOfRound | src/duty/attestation/attestation.service.ts:203-253 | the committee map holds exactly the listed committees of both epochs, each under its own index and slot |
| AttestationMeaning.ResolveExactlyIf | src/duty/attestation/attestation.service.ts:112-131 | no attestation makes a check fail exactly if the committees of every attestation that counts are known |
| AttestationMeaning.CheckFlags | src/duty/attestation/attestation.service.ts:65-138 | from a cleared store, for any blocks: flag f of (target epoch, validator) is set exactly if some attestation in a block of the two epochs, not from before them, targets that epoch, has the validator's bit set in the committees it names, and has f among the Altair specification's flag indices for its delay, with its source, target and head roots compared with the canonical roots of the source epoch's first slot, of the target epoch's first slot and of its own slot |
| AttestationMeaning.CheckMeaning | src/duty/attestation/attestation.service.ts:65-138 | on blocks the chain accepts, with one committee per validator and epoch, every record says what the blocks say: attested iff some such attestation includes the validator, expected but absent iff it only sits in a committee, each flag as above, the delay the least |
| ProposalRewards.ShareMatchesSpec | src/duty/propose/propose.constants.ts:6-10 | the reward for one aggregate's lists equals the proposer reward of `process_attestation` in the Altair specification, a sum over the set of attesting indices divided once |
| ProposalRewards.RunBalance | src/duty/attestation/attestation.service.ts:276-284 | along a run the numerators of all stored lists grow by exactly what the newly set flags are worth, and one list is stored per aggregate |
| ProposalRewards.ProposerRewardConservation | src/duty/duty.service.ts:156-188 | with N the worth of all flags and A aggregates, the total R of the floored rewards satisfies N - 447*A <= 448*R <= N |
| DutyMetadata.DutyService.FillAttestationAndSyncMetadata | src/duty/duty.service.ts:114-153 | adds to each participation total the increments of exactly the unslashed validators whose previous vote earned the flag, and to each block's sync reward the per-sync reward once for every seat that signed it; fails exactly if a balance or a block is unknown; changes no record |
| DutyMetadata.DutyService.FillProposalRewardsMetadata | src/duty/duty.service.ts:156-188 | adds to each block's reward the floored share of each attestation filed under it and changes nothing else; fails exactly if a listed validator has no balance or a block no reward entry |
| DutyMetadata.HeadParticipationIsLeast | src/duty/duty.service.ts:121-137 | if the head flag implies the others, head participation exceeds neither source nor target participation |
| DutyMetadata.StoredProposerRewardsConserve | src/duty/duty.service.ts:156-188 | the conservation law down to the rewards stored per block |
| WholeBalances.ParticipationIsBalance | src/duty/duty.service.ts:121-137 | for balances in whole increments, each participation total grows, in Gwei, by the sum of the effective balances of the unslashed validators whose previous vote has the flag |
| WholeBalances.FlagsWorthIsBalance | src/duty/duty.service.ts:163-181 | for balances in whole increments the worth of all flags is, in Gwei, the sum over the set flags of effective balance times base reward per increment times weight |
| SyncConstants.FusedDivisionMatchesSpec | src/duty/sync/sync.constants.ts:7-13 | one fused floor division, and the proposer reward derived from it, equal the successive floor divisions of `process_sync_aggregate` in the Altair specification for all inputs |
| Sync.SyncService.Check | src/duty/sync/sync.service.ts:25-87 | walks the committee seat by seat over the epoch's blocks and merges the list of those blocks into the metadata; which blocks and bits these are is `SyncMeaning.BlocksToSync` and `SyncMeaning.MemberRewards` |
| Sync.SeatsMeaning | src/duty/sync/sync.service.ts:50-80 | a validator is a sync member exactly if it holds a seat; its record lists every seat it holds with exactly the blocks whose bit for that seat is set, and the percentage over all of them |
| Sync.PercentIsShare | src/duty/sync/sync.service.ts:75-77 | the recorded percentage lies between 0 and 100, is the share of set bits among all bits of the validator's seats, and is 100 if there was nothing to sign |
| Sync.SetBitsCountsAll | src/duty/sync/sync.service.ts:50-58 | the per-seat count of a block's bits is the number of set bits of the bitfield |
| Sync.BlockSyncReward | src/duty/duty.service.ts:138-145 | each block's sync reward is the per-sync proposer reward times the number of its set bits, whoever holds the seats; a slot without a block gets nothing |
| Sync.SyncRewards.Calculate | src/duty/sync/sync.rewards.ts:18-42 | every sync member and nobody else gets earned, missed and penalty from its own seats; fails exactly if a member's record has no seats |
| SyncMeaning.BlocksToSync | src/duty/sync/sync.service.ts:82-86 | after a check of an epoch without recorded blocks, the list of blocks to sync holds every block of the epoch exactly once and nothing else |
| SyncMeaning.SyncTotals | src/duty/sync/sync.rewards.ts:18-42 | from the store before the check, over any store that keeps the seats and the list of blocks, to the store after the calculation: summed over validators, earned is the stored per-block reward times all set bits of the epoch's blocks, and both missed and penalty are that reward times all bits left unset |
| SyncMeaning.MemberRewards | src/duty/sync/sync.rewards.ts:20-41 | each validator's earned, missed and penalty are the per-block reward times the bits it set, and left unset, in the blocks of the epoch over all its seats; a validator without a seat is untouched |
| SyncMeaning.RoundSyncTotals | src/duty/duty.service.ts:63-79 | after a round in any interleaving, the fill and the calculation, the totals are the specification's participant reward times the set and the unset bits |
| SyncMeaning.RoundMemberRewards | src/duty/duty.service.ts:63-79 | the same for every single validator |
| IntegerSqrt.BigNumberSqrt | src/common/functions/bigNumberSqrt.ts:3-12 | the Newton iteration terminates with y*y <= n < (y+1)*(y+1) for every n >= 0 |
| IntegerSqrt.SqrtUnique | src/common/functions/bigNumberSqrt.ts:3-12 | that condition determines the root |
| ValidatorState.ActiveStatusIsActive | src/duty/state/state.service.ts:107-133 | the three active statuses are given exactly to validators with activation <= epoch < exit |
| ValidatorState.StatusMatchesApi | src/duty/state/state.service.ts:107-133 | for epochs in order the computed status is the one status whose definition in the beacon API fits |
| ValidatorState.StatesMeaning | src/duty/state/state.service.ts:73-90 | every validator of the state has exactly its own slashed flag, status, balance and effective balance recorded under its index, and no other record or field changes |
| ValidatorState.ActiveCountIs | src/duty/state/state.service.ts:87-90 | the counter ends at the number of validators with activation <= epoch < exit |
| ValidatorState.StateService.Check | src/duty/state/state.service.ts:47-104 | writes every validator's state fields, and the number, total increments and base reward of exactly the active ones; fails exactly if the active increments are zero |
| ValidatorState.BaseRewardMatchesSpec | src/duty/state/state.service.ts:92-96 | with positive active stake and balances in whole increments the base reward is `get_base_reward_per_increment` of the Altair specification |
| ValidatorState.BaseRewardFalls | src/duty/state/state.service.ts:92-96 | the base reward never rises as stake grows |
| Propose.ProposeService.Check | src/duty/propose/propose.service.ts:21-42 | files every duty of the epoch; fails exactly if the duties are unknown |
| Propose.ProposedMeaning | src/duty/propose/propose.service.ts:30-41 | a validator with a duty is marked as proposer and its record shows the last of its duties, with whether that slot has a block; the record of a validator without a duty is untouched |
| Withdrawals.WithdrawalsService.Check | src/duty/withdrawal/withdrawals.service.ts:27-47 | processes the withdrawals of all blocks in order |
| Withdrawals.WithdrawnMeaning | src/duty/withdrawal/withdrawals.service.ts:34-46 | the balance withdrawn grows by the sum of the validator's amounts over all blocks and stays absent for a validator without a withdrawal |
| Withdrawals.CheckedWithdrawals | src/duty/withdrawal/withdrawals.service.ts:27-47 | a check adds to a validator's amount the sum over all blocks of the sums in each block, and leaves it absent exactly if no block pays the validator |
| AttestationRewards.RewardWithinOne | src/duty/attestation/attestation.rewards.ts:26-40 | with participation cut off after 18 decimals a reward component is at most the `get_flag_index_deltas` value of the Altair specification and at least that value minus 1, for weight * base reward < 64 * 10^18 |
| AttestationRewards.RewardExactIf | src/duty/attestation/attestation.rewards.ts:26-40 | the component equals the specification's value exactly if the remainder of the specification's division covers what cutting off the participation lost, for all inputs |
| AttestationRewards.RewardOneShort | src/duty/attestation/attestation.rewards.ts:26-40 | with a third of the stake taking part and a base reward of 96, the specification pays 7 for the source vote and the program 6 |
| AttestationRewards.PenaltyMatchesSpec | src/duty/attestation/attestation.constants.ts:51-61 | penalties equal the specification's, and there is none for the head flag |
| AttestationRewards.EarnedBounds | src/duty/attestation/attestation.rewards.ts:71-94 | whatever the flags, earned lies between 0 and the perfect reward |
| AttestationRewards.AttestationRewardsService.Settle | src/duty/attestation/attestation.rewards.ts:66-112 | one validator's vote of the previous epoch is copied and rewarded by merge; a slashed validator loses its previous record's vote and is rewarded as if absent |
| AttestationRewards.AttestationRewardsService.Calculate | src/duty/attestation/attestation.rewards.ts:22-118 | settles exactly the validators with attestation data in the previous epoch, in any order with the same result, and leaves every other record and all metadata alone; fails exactly if the total increments are zero or such a validator has no balance |
| AttestationRewards.SettledRewards | src/duty/attestation/attestation.rewards.ts:86-112 | every settled validator, with its balance in increments as the base: earned is at most the specification's sum over the flags of its vote and short of it by at most one per set flag; so are earned and missed together against the perfect reward; both are non-negative; the penalty is exact; a slashed validator counts as one without a vote and loses its previous record's vote |
| AttestationRewards.SettlingTouchesNoMore | src/duty/attestation/attestation.rewards.ts:46-118 | only votes and attestation rewards change, only in the two epochs, and only of validators with data of the previous epoch |
| AttestationRewards.RowShowsVote | src/duty/attestation/attestation.rewards.ts:100-107 | a stored row shows the settled vote exactly if that vote has a value wherever the row had one |
| AttestationRewards.RowShowsPreviousVote | src/duty/attestation/attestation.rewards.ts:46-112 | for every validator of the epoch the stored row shows the vote that counts exactly if: without data of the previous epoch, or slashed, the row had no attestation data; otherwise it voted in the previous epoch or did not vote in this one |
| AttestationRewards.RowKeepsCurrentVote | src/duty/attestation/attestation.rewards.ts:50-63 | a newly activated validator without data of the previous epoch keeps in its row what the row says of this epoch |
| AttestationRewards.RowMixesVotes | src/duty/attestation/attestation.rewards.ts:100-107 | a validator that missed its vote and made the next one gets a row mixing the two |
| AttestationRewards.CheckedIsShaped | src/duty/attestation/attestation.service.ts:232-294 | a check leaves only three shapes of records: no committee, in a committee without a vote, with a complete vote |
| Steps.StepsCommute | src/duty/duty.service.ts:65-74 | any two atomic steps of different strands give the same store and committee map in either order, except a fold step against a step of a committee pipeline |
| Interleaving.SameStrandsSameStore | src/duty/duty.service.ts:65-74 | two runs that take the same steps strand by strand end in the same summary and metadata |
| Interleaving.AnyInterleaving | src/duty/duty.service.ts:65-74 | however the five checks and the two pipelines that fill the committee map are interleaved, in a round in which none fails, the store ends as if the checks had run one after another |
| Round.RoundFlags | src/duty/duty.service.ts:63-74 | after a round in any interleaving a flag is set exactly if some attestation in the blocks earned it, as in `AttestationMeaning.CheckFlags` |
| Round.RoundVoteMeaning | src/duty/duty.service.ts:63-74 | after a round in any interleaving, on blocks the chain accepts and one committee per validator and epoch, every attestation record says exactly what the attestations in the blocks say, as in `AttestationMeaning.CheckMeaning` |
| Round.RoundIsShaped | src/duty/duty.service.ts:63-74 | after a round in any interleaving every record is a complete vote, an expectation without a vote, or without attestation data |
| Round.RoundHeadParticipation | src/duty/duty.service.ts:114-137 | after a round in any interleaving and the fill, head participation is the least of the three |
| Round.RoundConservesProposerRewards | src/duty/duty.service.ts:63-188 | after a round in any interleaving and both fills, the stored attestation rewards R of all blocks satisfy N - 447*A <= 448*R <= N with N the worth of the votes in the store |
| Round.RoundSyncRewards | src/duty/duty.service.ts:63-153 | after a round in any interleaving and the fill, each block's sync reward is the specification's proposer reward for one sync bit times the bits set in that block |
| RoundState.RoundState | src/duty/state/state.service.ts:73-104 | after a round in any interleaving every record of the epoch holds its validator's own state, and the totals are the number, increments and base reward of the active validators |
| RoundState.RoundParticipation | src/duty/duty.service.ts:63-137 | after a round in any interleaving and the fill, for balances in whole increments: participation with a flag is, in Gwei, the sum of the effective balances of the unslashed validators of the state for which some attestation in the blocks earned the flag in the previous epoch |
| RoundState.RoundParticipationWithinActive | src/duty/duty.service.ts:63-137 | if everyone who voted is still active, no participation exceeds the active increments stored by the state check |
| RoundState.RoundRewardsFromStake | src/duty/duty.service.ts:63-188 | the stored attestation rewards of all blocks against the worth of the votes by effective balance and the specification's base reward per increment, up to one rounding per attestation |
| RoundState.RoundAttestationRewards | src/duty/attestation/attestation.rewards.ts:22-118 | after a round in any interleaving, the fill and the settlement, a validator with data of the previous epoch earns, for each flag with which some attestation in the blocks shows its vote, the specification's reward or one unit less, and is penalised exactly as specified for the rest; a slashed one counts as one without a vote |
| Chain.AnswersAgree | src/common/consensus-provider/consensus-provider.service.ts:489-539 | there is at most one last block up to a slot and at most one next block after it |
| Chain.ParentOfNext | src/common/consensus-provider/consensus-provider.service.ts:201-220 | the parent root of the next block names the last block up to the slot |
| BlockCache.BlockCacheService.Set | src/common/consensus-provider/block-cache/block-cache.service.ts:24-30 | merges by spreading, so a given undefined replaces the old value; "head" and "finalized" are never stored |
| BlockCache.BlockCacheService.PurgeOld | src/common/consensus-provider/block-cache/block-cache.service.ts:40-55 | removes exactly the entries by root and those of slots before the epoch two back and keeps the others as they are |
| BlockCache.WritesMeet | src/common/consensus-provider/block-cache/block-cache.service.ts:24-30 | a header and an info of one block are both kept, whichever arrives first; a mark as missed keeps neither, and an answer lifts the mark |
| BlockCache.WriteKeepsSound | src/common/consensus-provider/block-cache/block-cache.service.ts:24-30 | writing a true answer or a true gap keeps every entry equal to what the chain says |
| BlockCache.GrowthKeepsSound | src/common/consensus-provider/consensus-provider.service.ts:571-579 | chain growth never falsifies a cached entry, in particular a slot once marked missed stays missed |
| BlockCache.HitIsAnswer | src/common/consensus-provider/consensus-provider.service.ts:160-165 | a cached answer is the answer the nodes would give |
| BlockCache.AlwaysSound | src/common/consensus-provider/block-cache/block-cache.service.ts:24-59 | in every run of stored answers, gap marks, purges, clears and chain growth from an empty cache, the cache is sound |
| ConsensusProvider.ConsensusProviderService.GetBlockHeader | src/common/consensus-provider/consensus-provider.service.ts:160-195 | if it does not fail it returns the chain's answer, whatever the cache holds and whether it is used or not; a header found through the cache is cached afterwards |
| ConsensusProvider.ConsensusProviderService.GetBlockInfo | src/common/consensus-provider/consensus-provider.service.ts:245-286 | likewise for block infos |
| ConsensusProvider.ConsensusProviderService.GetNextInDense | src/common/consensus-provider/consensus-provider.service.ts:489-513 | returns the first block after the slot if it is within maxDeep + 1 slots and raises MaxDeepError exactly if none is, unless a request fails; with answering nodes it finds a block exactly if one is within reach |
| ConsensusProvider.ConsensusProviderService.GetCurrentOrPreviousInDense | src/common/consensus-provider/consensus-provider.service.ts:515-539 | returns the last block up to the slot if it is at most maxDeep slots back and raises MaxDeepError exactly if it is not, unless a request fails; with answering nodes it finds a block exactly if one is within reach |
| ConsensusProvider.ConsensusProviderService.MarkMissed | src/common/consensus-provider/consensus-provider.service.ts:571-579 | the gap-marking loop records exactly truly missed slots, all those strictly between two consecutive blocks |
| ConsensusProvider.ConsensusProviderService.StepToNext | src/common/consensus-provider/consensus-provider.service.ts:565-579 | execution-layer timestamps lead from a block to the slot of its successor, and every slot in between is cached as missed |
| ConsensusProvider.ConsensusProviderService.GetSurroundingInSparse | src/common/consensus-provider/consensus-provider.service.ts:541-596 | the sparse walk returns the last block up to the target and the first after it from any known block; with answering nodes it succeeds from a known block exactly if a block after the target exists, and from no start or a missed one, where it falls back to the scans, exactly if both scans have a block within reach, without any other error; a start after the target is an error |
| ConsensusProvider.ConsensusProviderService.GetNextNotMissed | src/common/consensus-provider/consensus-provider.service.ts:454-468 | finds the first block after the slot, in dense mode exactly if it is within reach, in sparse mode exactly if the walk from a known block or, without one, both scans succeed |
| ConsensusProvider.ConsensusProviderService.GetCurrentOrPrevious | src/common/consensus-provider/consensus-provider.service.ts:470-487 | finds the last block up to the slot under the same conditions |
| ConsensusProvider.ConsensusProviderService.GetSlotHeaderOrPreviousIfMissed | src/common/consensus-provider/consensus-provider.service.ts:201-220 | returns the header of the slot or, if missed, of the last block before it; with answering nodes exactly if the slot has a block or the next block is found, in either mode and with or without a known start |
| ConsensusProvider.ConsensusProviderService.GetDutyDependentRoot | src/common/consensus-provider/consensus-provider.service.ts:225-229 | the dependent root of an epoch is the root of the last block before the epoch; with answering nodes it is found in dense mode exactly if that block is within reach, in sparse mode from a known block exactly if the chain has a block after the slot asked for, and without a known block exactly if both scans have one within reach |
| ConsensusProvider.LookupsAgree | src/common/consensus-provider/consensus-provider.service.ts:454-610 | dense scan, sparse walk and parent-root path return the same header for the same slot whenever they succeed |
| ConsensusProvider.ReachDecides | src/common/consensus-provider/consensus-provider.service.ts:489-539 | a block is within reach of a scan exactly if the one it looks for is |
| NodeFallback.RetryRequest | src/common/consensus-provider/consensus-provider.service.ts:355-405 | the loop with `res` and `err` over the nodes computes the recursive meaning of a request under any fallback rules |
| NodeFallback.AfterNotFound | src/common/consensus-provider/consensus-provider.service.ts:173-181 | after a 404 a later answer is used only if every node in between says 404 too; otherwise the block counts as missing |
| NodeFallback.WithoutNotFound | src/common/consensus-provider/consensus-provider.service.ts:355-405 | without a 404 the first resolved answer is returned, or the last error |
| NodeFallback.FindsExactlyIf | src/common/consensus-provider/consensus-provider.service.ts:160-195 | for all lists of answers, a block request finds a block exactly if some node resolves and, among the nodes before the first such node, no 404 is followed by another failure; it returns that node's block |
| NodeFallback.MissingExactlyIf | src/common/consensus-provider/consensus-provider.service.ts:160-195 | for all lists of answers, a block counts as missing exactly if a node before the first resolving one says 404 and either no node resolves or another failure follows a 404 |
| NodeFallback.HonestNodes | src/common/consensus-provider/consensus-provider.service.ts:173-194 | if no node calls an existing block missing, a request never does, however nodes fail |
| NodeFallback.LaggingNodeHidesBlock | src/common/consensus-provider/consensus-provider.service.ts:173-181 | a lagging node followed by a failing one makes a block that a third node has count as missing |
| NodeFallback.HeadTracker.GetLatestSlotHeader | src/common/consensus-provider/consensus-provider.service.ts:119-158 | one head request updates the known slot and returns as the fallback rule for heads says |
| NodeFallback.HeadRequestLaws | src/common/consensus-provider/consensus-provider.service.ts:124-148 | the known slot never falls and rises only to one a node offered; a returned header has exactly the known slot, is not known to be unfinalized, and is of a later epoch or known for at most seven minutes |
| NodeFallback.ThrownIfAllRefused | src/common/consensus-provider/consensus-provider.service.ts:124-148 | a head request fails only if every node failed or its answer was unfinalized, behind the known slot, or the known slot had not changed for seven minutes |
| NodeFallback.HeadNeverGoesBack | src/common/consensus-provider/consensus-provider.service.ts:119-158 | over any sequence of calls and node answers the returned heads never go back |
| EpochProcessing.StepKeeps | src/inspector/inspector.service.ts:39-78 | every atomic step, including a late mutation or a stop, keeps the rows contiguous with only the last incomplete, and moves the last processed epoch by at most one; the one exception is a stop between the first summary and the first row |
| EpochProcessing.EpochOrder | src/inspector/inspector.service.ts:39-78 | over every run from a table in order the fully processed epochs are one interval from the start epoch, its end never decreases, and a calculated epoch is a stored one; a run from an empty table must not lose its first summary |
| EpochProcessing.EpochByEpoch | src/inspector/inspector.service.ts:132-157 | from one state of a run to the next that end stays or grows by exactly 1 |
| EpochProcessing.OrderFromEmpty | src/inspector/inspector.service.ts:134-153 | from an empty table the epochs are processed in order from the configured one if the summary table stops short of it and no first summary is lost |
| EpochProcessing.FirstRow | src/inspector/inspector.service.ts:136-153 | in every run from an empty table the first row is the configured epoch's, and the table is in order, exactly if the summary table did not reach that epoch at the start and the program never stopped between a summary and the first row; otherwise the table is out of order from its first row on |
| EpochProcessing.StopSkipsStart | src/duty/duty.service.ts:58-60 | a program stopped between its first summary and its first row skips the configured epoch when it runs again |
| EpochProcessing.SkippedStartMayReturn | src/inspector/inspector.service.ts:138-153 | with a summary table that reaches beyond it, the configured epoch is skipped and may be inserted later, behind a later epoch |
| EpochProcessing.Database.GetLastProcessedEpoch | src/storage/clickhouse/clickhouse.service.ts:111-119 | the largest epoch both stored and calculated, 0 if there is none |
| EpochProcessing.Database.GetLastEpoch | src/storage/clickhouse/clickhouse.service.ts:121-125 | the row of the largest epoch, or epoch 0 without flags if there is no row |
| EpochProcessing.Database.GetMaxEpoch | src/storage/clickhouse/clickhouse.service.ts:127-131 | the largest epoch of the summary table |
| EpochProcessing.Database.GetOrInitEpochProcessing | src/storage/clickhouse/clickhouse.service.ts:612-627 | returns the row as it was read, inserting an empty one if there is none, on any table |
| EpochProcessing.Database.UpdateEpochProcessing | src/storage/clickhouse/clickhouse.service.ts:230-245 | on any table the row exists afterwards and the mutation is issued, pending or landed; it succeeds only once the row is visibly different from the one read |
| EpochProcessing.UpdateKeeps | src/storage/clickhouse/clickhouse.service.ts:230-245 | an update of an epoch to work on keeps the table in order even if it gives up; a visible difference means that the epoch is stored and, after marking it calculated, complete |
| EpochProcessing.InspectorService.ChooseEpochToProcess | src/inspector/inspector.service.ts:132-157 | on any table, the empty one included, and with mutations landing between the three reads: the choice counts as stored exactly if the last row read is stored and not calculated, as calculated exactly if it is the other way round, and its epoch is that row's if one of these holds and the configured one otherwise, but always beyond what was read as processed |
| EpochProcessing.ChooseMeans | src/inspector/inspector.service.ts:145-153 | these conditions determine the choice |
| EpochProcessing.ReadLastChooses | src/inspector/inspector.service.ts:145-153 | the same for the step of the state machine |
| EpochProcessing.HalfDoneIsCompleted | src/inspector/inspector.service.ts:52-71 | after a stop between storing and calculating, with nothing on its way, every run that does not stop again takes the same seven steps: it issues the one mutation that marks the epoch as calculated, writes no summary, and ends with the epoch complete and the rest of the table unchanged |
| EpochProcessing.ChoiceFollows | src/inspector/inspector.service.ts:132-157 | on a table in order that choice is the last row's epoch or the one after a complete last row, or the configured one on an empty table, and is taken as stored only if it is |
| EpochProcessing.InspectorService.Turn | src/inspector/inspector.service.ts:39-71 | one turn of the main loop from a table in order or empty, ending anywhere, keeps the rows in order and the last processed epoch from decreasing; a turn that runs to its end leaves the last epoch complete and the last processed one further on; from a stored, uncalculated last epoch with nothing on its way it issues that epoch's calculation and nothing else, and completes it if it runs to its end |
| Queries.AmountIsFailingInAll | src/storage/clickhouse/clickhouse.constants.ts:190-226 | the query's amount for an operator is the number of its validators that meet the condition in every one of the last N epochs, whatever duplicate rows exist and whichever of them is kept (N >= 1, as the configuration demands, and one operator per validator) |
| Queries.ColumnsCountRows | src/storage/clickhouse/clickhouse.constants.ts:403-443 | every column of the two-level grouped query is the plain count of the operator's rows in that status |
| Queries.ColumnsByStatus | src/storage/clickhouse/clickhouse.constants.ts:403-433 | which columns count a row, status by status |
| Queries.StatusesAddUp | src/storage/clickhouse/clickhouse.constants.ts:403-443 | ongoing + pending + withdraw_pending + withdrawn + actively slashed rows, plus rows without a status or with an unknown balance of a possible withdrawal, are all rows of the operator |
| Queries.RowsAreValidators | src/storage/clickhouse/clickhouse.constants.ts:434-440 | after deduplication each validator of the operator is one row |
| Retrier.Retry | src/common/functions/retrier.ts:19-34 | calls back at most max(1, N) times, stops at the first success, gives up exactly when the retries or the backoff are used up, and sleeps less than twice the maximal backoff in all |
| Alerts.AlertRule | src/common/alertmanager/alerts/CriticalMissedAttestations.ts:28-57 | reports exactly the operators with enough validators that missed the fixed number of attestations or the share of their own, each with its own numbers and those of the first entry for its index and module; fails exactly if an operator that is large enough is unknown while missed attestations are listed |
| Alerts.CriticalAlertsService.SendRule | src/common/alertmanager/alerts/CriticalMissedAttestations.ts:59-76 | sends exactly if the result is not empty and either six hours have passed, or one hour and some operator got worse |
| Alerts.CriticalAlertsService.Send | src/common/alertmanager/critical-alerts.service.ts:87-93 | each alert that is sent replaces its entry in the sent alerts |
| Alerts.SendsExactlyIf | src/common/alertmanager/alerts/CriticalMissedAttestations.ts:59-76 | in every run a try is a send exactly if its result is not empty and more than six hours have passed since the last send of this alert, or more than one and some operator missed more than in the result sent then |
| Alerts.SendsAreApart | src/common/alertmanager/alerts/CriticalMissedAttestations.ts:59-76 | over all rounds, sends i < j of one alert are more than j - i hours apart |
| Alerts.SendsInSpan | src/common/alertmanager/critical-alerts.service.ts:87-93 | a span of time holds at most one send more than its hours |
| Alerts.AlwaysSentAgain | src/common/alertmanager/alerts/CriticalMissedAttestations.ts:63-65 | a non-empty result more than six hours after the last send is always sent |

## Left out

- ConsensusProvider.ConsensusProviderService.Request: the chain does not grow during one lookup, only between lookups, because a 404 for a slot the chain has not reached yet is not a missed slot; the fallback over several nodes is `NodeFallback`.
- ConsensusProvider.ConsensusProviderService.Await: stands for everything else that runs at the same time; callers rely only on the soundness of the cache, not on what is cached.
- EpochProcessing.InspectorService.Turn: states order and what a completed turn has done, not that turns complete: nodes and database may fail for ever.
- EpochProcessing.Database.GetOrInitEpochProcessing: an insert is visible when it returns; a duplicate insert that lands late, a second instance of the program, and a row of epoch 0, which the program takes for a missing one, are not modelled.
- EpochProcessing.Database.GetMaxEpoch: the summary table only grows, and a summary insert does not land after the program stopped.
- NodeFallback.LaggingNodeHidesBlock: the check of `getBlockInfo` that a resolved block is finalized is not part of the block rule.
- AttestationRewards.RewardWithinOne: participation after the 18-decimal division is exact; its rounding to a 64-bit float is not modelled.
- Alerts.CriticalAlertsService.Send: covers missed-attestation alerts; the other alert classes have their own names and similar rules. The early returns on stale data and on a missing URL are not modelled.
- ValidatorState.StateService.Check: public keys, operators and stuck keys of a record are not modelled.
- Interleaving.AnyInterleaving: covers rounds in which no check fails, as after a failure the summary is discarded by the next round's clear, and in which the node answers a request for an epoch's committees with committees of that epoch's slots.
- IEEE-754 rounding of JavaScript numbers anywhere.
- The comparison of dependent roots that accepts proposer duties as canonical: the duties are an input.
- HTTP, streams, SSZ decoding, the ClickHouse and SQLite drivers: their results are inputs.
- Head mode and reorganisations: one canonical chain.
- The inactivity leak and slashing penalties, which the program does not implement, and the proposer's missed rewards (`ProposeRewards`).
- The per-check memo of canonical roots: the canonical root is a function of the slot.
- Writing summaries and metadata to the database, Prometheus metrics, health checks, configuration, registry sources, alert texts.
- The slashing, missed-proposal and negative-delta alerts and the remaining queries.
