/** What the increments of the reward formulas stand for: effective balances, which the chain keeps in whole increments. */
module WholeBalances {
  import opened Constants
  import opened Options
  import opened Sums
  import opened Summary
  import opened AttestationConstants
  import opened AttestationAccounting
  import opened DutyMetadata
  import ProposalRewards
  import SyncConstants

  function Balance(duties: map<int, Duty>, v: int): nat {
    if v in duties then duties[v].state.effectiveBalance.GetOr(0) else 0
  }

  predicate Whole(duties: map<int, Duty>) {
    forall v :: v in duties ==> Balance(duties, v) % GWEI_PER_INCREMENT == 0
  }

  /** The base reward of a validator in Gwei times Gwei per increment. */
  function BalanceTimes(duties: map<int, Duty>, perIncrement: nat): int -> nat {
    v => Balance(duties, v) * perIncrement
  }

  /** The effective balance of an unslashed validator whose vote of the previous epoch has the flag. */
  ghost function VoterBalance(curr: map<int, Duty>, prev: map<int, Duty>, f: Flag): int -> int {
    v => if v in curr && curr[v].state.slashed != Some(true) && v in prev && prev[v].att.happened == Some(true)
            && (match f case SourceFlag => prev[v].att.source case TargetFlag => prev[v].att.target case HeadFlag => prev[v].att.head) == Some(true)
         then Balance(curr, v) else 0
  }

  lemma WholeIncrement(duties: map<int, Duty>, v: int)
    requires Whole(duties)
    ensures GWEI_PER_INCREMENT * Increments(duties, v) == Balance(duties, v)
  {
    if v in duties {
      assert Balance(duties, v) % GWEI_PER_INCREMENT == 0;
    }
  }

  lemma TakingIsBalance(curr: map<int, Duty>, prev: map<int, Duty>, f: Flag)
    requires Whole(curr)
    ensures SumSet(curr.Keys, VoterBalance(curr, prev, f)) == GWEI_PER_INCREMENT * SumSet(curr.Keys, Taking(curr, prev, f))
  {
    forall v | v in curr.Keys
      ensures VoterBalance(curr, prev, f)(v) == GWEI_PER_INCREMENT * Taking(curr, prev, f)(v)
    {
      hide Increments, Balance;
      WholeIncrement(curr, v);
    }
    SumSetScale(curr.Keys, Taking(curr, prev, f), GWEI_PER_INCREMENT, VoterBalance(curr, prev, f));
  }

  /** Each participation total grows by the effective balances, in increments, of the unslashed validators whose previous
      vote has the flag. */
  lemma ParticipationIsBalance(m: EpochMeta, m': EpochMeta, curr: map<int, Duty>, prev: map<int, Duty>)
    requires AttSyncFilled(m, m', curr, prev) && Whole(curr)
    ensures var p, p' := m.att.participation, m'.att.participation;
      && GWEI_PER_INCREMENT * (p'.source - p.source) == SumSet(curr.Keys, VoterBalance(curr, prev, SourceFlag))
      && GWEI_PER_INCREMENT * (p'.target - p.target) == SumSet(curr.Keys, VoterBalance(curr, prev, TargetFlag))
      && GWEI_PER_INCREMENT * (p'.head - p.head) == SumSet(curr.Keys, VoterBalance(curr, prev, HeadFlag))
  {
    hide Whole, Taking, VoterBalance, SumSet, RewardsGrew, SyncedUpTo, SyncConstants.SyncReward, SyncConstants.PerSyncProposerReward;
    TakingIsBalance(curr, prev, SourceFlag);
    TakingIsBalance(curr, prev, TargetFlag);
    TakingIsBalance(curr, prev, HeadFlag);
  }

  lemma FlagIsBalance(st: Storage, duties: map<int, Duty>, perIncrement: nat, f: Flag)
    requires Whole(duties)
    ensures ProposalRewards.FlagWorth(st, BalanceTimes(duties, perIncrement), f)
         == GWEI_PER_INCREMENT * ProposalRewards.FlagWorth(st, BaseReward(duties, perIncrement), f)
  {
    var flagged := ProposalRewards.Flagged(st, f);
    var worth := ProposalRewards.PairWorth(BaseReward(duties, perIncrement), f.Weight());
    var worth' := ProposalRewards.PairWorth(BalanceTimes(duties, perIncrement), f.Weight());
    hide ProposalRewards.Flagged, Increments, Balance, Whole;
    forall p | p in flagged
      ensures worth'(p) == GWEI_PER_INCREMENT * worth(p)
    {
      WholeIncrement(duties, p.1);
      Regrouped(GWEI_PER_INCREMENT, Increments(duties, p.1), perIncrement, f.Weight());
    }
    SumSetScale(flagged, worth, GWEI_PER_INCREMENT, worth');
  }

  lemma Regrouped(g: int, n: int, k: int, w: int)
    ensures ((g * n) * k) * w == g * ((n * k) * w)
  {
  }

  /** The worth of all flags, in terms of effective balances. */
  lemma FlagsWorthIsBalance(st: Storage, duties: map<int, Duty>, perIncrement: nat)
    requires Whole(duties)
    ensures ProposalRewards.FlagsWorth(st, BalanceTimes(duties, perIncrement))
         == GWEI_PER_INCREMENT * ProposalRewards.FlagsWorth(st, BaseReward(duties, perIncrement))
  {
    hide ProposalRewards.FlagWorth, BaseReward, BalanceTimes, Whole;
    FlagIsBalance(st, duties, perIncrement, SourceFlag);
    FlagIsBalance(st, duties, perIncrement, TargetFlag);
    FlagIsBalance(st, duties, perIncrement, HeadFlag);
  }
}
