/** The beacon state at the end of a round, and what the filled totals are in terms of the balances in it. */
module RoundState {
  import opened Constants
  import opened Options
  import opened Sums
  import opened Summary
  import opened AttestationConstants
  import opened Attestation
  import opened AttestationAccounting
  import opened AttestationMeaning
  import opened DutyMetadata
  import opened ValidatorState
  import Sync
  import opened Steps
  import opened Interleaving
  import opened Round
  import opened WholeBalances
  import AttestationRewards
  import ProposalRewards
  import SyncConstants

  // ---- only the state check writes the state ---------------------------------------------------

  ghost predicate SameState(st: Storage, st': Storage, epoch: int) {
    && (forall e, v :: DutyAt(st', e, v).state == DutyAt(st, e, v).state)
    && MetaAt(st', epoch).state == MetaAt(st, epoch).state
  }

  lemma FoldLeavesState(st: Storage, epoch: int, agg: Aggregate)
    ensures SameState(st, RunAggregate(st, epoch, agg), epoch)
  {
    forall e, v
      ensures DutyAt(RunAggregate(st, epoch, agg), e, v).state == DutyAt(st, e, v).state
    {
      RunAggregateRecord(st, epoch, agg, e, v);
      hide RunAggregate, DutyAt;
    }
    var w := IncludeAll(World(st, NO_CREDIT), agg.targetEpoch, agg.members, agg.incDelay, agg.flags);
    IncludeAllKeepsMeta(World(st, NO_CREDIT), agg.targetEpoch, agg.members, agg.incDelay, agg.flags, epoch);
    CloseIsWrite(w.st, epoch, agg.block, w.credit);
    DutyAfterMeta(w.st, epoch, Filed(MetaAt(w.st, epoch), agg.block, w.credit), epoch, 0);
    hide DutyAt, IncludeAll, Close, WithMeta, MetaAt;
  }

  lemma PlainLeavesState(st: Storage, epoch: int, s: Step)
    requires IsPlain(s) && LaneOf(s) != StateLane
    ensures SameState(st, ApplyPlain(st, epoch, s), epoch)
  {
    ApplyIsWrite(st, epoch, s);
    hide ApplyPlain;
    if OnRecord(s) {
      var (e, u) := Place(s, epoch);
      assert Act(s, epoch, DutyAt(st, e, u)).state == DutyAt(st, e, u).state by {
        hide MergeSync, Sync.SeatPatch, DutyAt;
      }
      forall e', v
        ensures DutyAt(ApplyPlain(st, epoch, s), e', v).state == DutyAt(st, e', v).state
      {
        DutyAfterWrite(st, e, u, Act(s, epoch, DutyAt(st, e, u)), e', v);
        hide Act, WithDuty, DutyAt;
      }
      DutyAfterWrite(st, e, u, Act(s, epoch, DutyAt(st, e, u)), epoch, 0);
      hide Act, WithDuty, DutyAt, MetaAt;
    } else {
      forall e', v
        ensures DutyAt(ApplyPlain(st, epoch, s), e', v).state == DutyAt(st, e', v).state
      {
        DutyAfterMeta(st, epoch, ActMeta(s, MetaAt(st, epoch)), e', v);
        hide WithMeta, DutyAt, ActMeta;
      }
      DutyAfterMeta(st, epoch, ActMeta(s, MetaAt(st, epoch)), epoch, 0);
      hide WithMeta, DutyAt;
    }
  }

  lemma StepLeavesState(sh: Shared, env: Env, s: Step)
    requires LaneOf(s) != StateLane
    ensures SameState(sh.st, Apply(sh, env, s).st, env.epoch)
  {
    hide ApplyPlain, RunAggregate, Resolve, DutyAt, MetaAt;
    if s.FoldOne? {
      var agg := Resolve(s.att, sh.committees, env.canon, env.forks);
      if agg.Some? {
        FoldLeavesState(sh.st, env.epoch, agg.value);
      }
    } else if IsPlain(s) {
      PlainLeavesState(sh.st, env.epoch, s);
    }
  }

  lemma {:induction false} RunLeavesState(sh: Shared, env: Env, tr: seq<Step>)
    requires forall i :: 0 <= i < |tr| ==> LaneOf(tr[i]) != StateLane
    ensures SameState(sh.st, Run(sh, env, tr).st, env.epoch)
  {
    hide Apply, DutyAt, LaneOf;
    if tr != [] {
      RunLeavesState(sh, env, tr[..|tr| - 1]);
      StepLeavesState(Run(sh, env, tr[..|tr| - 1]), env, tr[|tr| - 1]);
    }
  }

  // ---- the state at the end of a round ---------------------------------------------------------

  ghost function AfterStateStrand(t: Inputs, env: Env): seq<Step>
    requires Succeeds(t, env)
  {
    StrandOf(t, env, PrevLane) + StrandOf(t, env, CurrLane) + SecondHalf(t, env)
  }

  lemma NoStateAfter(t: Inputs, env: Env)
    requires Succeeds(t, env)
    ensures FirstHalf(t, env) + SecondHalf(t, env) == StrandOf(t, env, StateLane) + AfterStateStrand(t, env)
    ensures forall i :: 0 <= i < |AfterStateStrand(t, env)| ==> LaneOf(AfterStateStrand(t, env)[i]) != StateLane
  {
    hide StrandOf, Succeeds, AllInOwnEpoch, LaneOf;
    forall lane
      ensures AllIn(StrandOf(t, env, lane), lane)
    {
      StrandsAreInLane(t, env, lane);
    }
  }

  lemma StateIsChecked(env: Env, t: Inputs, tr: seq<Step>)
    requires Succeeds(t, env) && Interleaves(tr, t, env)
    ensures SameState(StateChecked(map[], env.epoch, t.validators), Final(env, tr), env.epoch)
  {
    hide *;
    var sh := Shared(map[], map[]);
    AnyInterleaving(map[], env, t, tr);
    OrderlyResult(map[], env, t);
    NoStateAfter(t, env);
    RunConcat(sh, env, StrandOf(t, env, StateLane), AfterStateStrand(t, env));
    StateStrandDone(sh, env, t);
    SomeActive(t, env);
    RunLeavesState(sh.(st := StateChecked(map[], env.epoch, t.validators)), env, AfterStateStrand(t, env));
    FinalIs(env, tr);
  }

  lemma SomeActive(t: Inputs, env: Env)
    requires Succeeds(t, env)
    ensures ActiveIncrements(t.validators, env.epoch) > 0
  {
    hide ActiveIncrements, AllResolve;
  }

  lemma FinalIs(env: Env, tr: seq<Step>)
    ensures Final(env, tr) == Run(Shared(map[], map[]), env, tr).st
  {
  }

  lemma StateStrandDone(sh: Shared, env: Env, t: Inputs)
    requires Succeeds(t, env)
    ensures Run(sh, env, StrandOf(t, env, StateLane)) == sh.(st := StateChecked(sh.st, env.epoch, t.validators))
  {
    StateStrandRun(sh, env, t);
    hide Run, StrandOf, StateChecked, Succeeds;
  }

  /** At the end of a round, however the checks were interleaved, the state part of every record of the epoch is the
      validator's own, and the totals are those of the active validators. */
  lemma RoundState(env: Env, t: Inputs, tr: seq<Step>, v: int)
    requires Succeeds(t, env) && Interleaves(tr, t, env)
    ensures var st, vs := Final(env, tr), t.validators;
      && DutyAt(st, env.epoch, v).state
         == (if 0 <= v < |vs|
             then StateDuty(Some(vs[v].slashed), Some(GetValidatorStatus(vs[v], env.epoch)), Some(vs[v].balance),
                            Some(vs[v].effectiveBalance))
             else NO_STATE)
      && MetaAt(st, env.epoch).state
         == StateMeta(|ActiveIn(vs, env.epoch)|, ActiveIncrements(vs, env.epoch), ValidatorState.BaseReward(ActiveIncrements(vs, env.epoch)))
  {
    hide Final, Interleaves, SetStates, GetValidatorStatus, ValidatorState.BaseReward, ActiveIncrements, ActiveIn, ActiveCount, AllResolve;
    StateIsChecked(env, t, tr);
    StatesMeaning(map[], env.epoch, t.validators, env.epoch, v);
    ActiveCountIs(t.validators, env.epoch);
  }

  // ---- participation ---------------------------------------------------------------------------

  predicate InState(vs: seq<Validator>, v: int) {
    0 <= v < |vs|
  }

  ghost function Indices(vs: seq<Validator>): set<int> {
    set v | 0 <= v < |vs| && InState(vs, v)
  }

  function Part(m: EpochMeta, f: Flag): nat {
    match f
    case SourceFlag => m.att.participation.source
    case TargetFlag => m.att.participation.target
    case HeadFlag => m.att.participation.head
  }

  /** Some attestation in the blocks earned the flag for the validator's vote of the previous epoch. */
  ghost predicate VotedWith(t: Inputs, env: Env, v: int, f: Flag) {
    Earns(t.attestations, CommitteesFor(t), env.canon, env.forks, env.epoch, env.epoch - 1, v, f)
  }

  /** The stake of an unslashed validator for which some attestation in the blocks earned the flag in the previous epoch. */
  ghost function VoterStake(t: Inputs, env: Env, f: Flag): int -> int {
    v => if 0 <= v < |t.validators| && !t.validators[v].slashed && VotedWith(t, env, v, f) then t.validators[v].effectiveBalance else 0
  }

  /** No participation has been counted before the fill. */
  lemma NoneCounted(env: Env, t: Inputs, tr: seq<Step>)
    requires Succeeds(t, env) && Interleaves(tr, t, env)
    ensures MetaAt(Final(env, tr), env.epoch).att.participation == Participation(0, 0, 0)
  {
    hide Final, Succeeds, Interleaves, AfterMembers, AggregatesFor, RunAll, MetaAt, AttAt, IsExpected;
    EndsAsFolded(env, t, tr);
    RunAllKeepsRewards(AfterMembers(map[], env, t), env.epoch, AggregatesFor(t, env));
    FreshStart(env, t, 0, 0);
  }

  lemma StakeIsBalance(env: Env, t: Inputs, tr: seq<Step>, f: Flag, v: int)
    requires Succeeds(t, env) && Interleaves(tr, t, env)
    ensures var curr, prev := DutiesAt(Final(env, tr), env.epoch), DutiesAt(Final(env, tr), env.epoch - 1);
      VoterBalance(curr, prev, f)(v) == VoterStake(t, env, f)(v)
  {
    hide Final, Succeeds, Interleaves, Earns, GetValidatorStatus, CommitteesFor;
    RoundState(env, t, tr, v);
    RoundFlags(env, t, tr, env.epoch - 1, v, f);
    RoundIsShaped(env, t, tr, env.epoch - 1, v);
    hide ValidatorState.BaseReward, ActiveIncrements, ActiveIn;
  }

  lemma DutiesAreWhole(env: Env, t: Inputs, tr: seq<Step>)
    requires Succeeds(t, env) && Interleaves(tr, t, env) && WholeIncrements(t.validators)
    ensures Whole(DutiesAt(Final(env, tr), env.epoch))
  {
    hide Final, Succeeds, Interleaves, GetValidatorStatus, ActiveIncrements, ActiveIn, ValidatorState.BaseReward;
    var duties := DutiesAt(Final(env, tr), env.epoch);
    forall v | v in duties
      ensures Balance(duties, v) % GWEI_PER_INCREMENT == 0
    {
      RoundState(env, t, tr, v);
    }
  }

  /** The validators of the state are those with a balance in the store. */
  lemma SameSum(env: Env, t: Inputs, tr: seq<Step>, f: Flag)
    requires Succeeds(t, env) && Interleaves(tr, t, env)
    ensures var curr, prev := DutiesAt(Final(env, tr), env.epoch), DutiesAt(Final(env, tr), env.epoch - 1);
      SumSet(curr.Keys, VoterBalance(curr, prev, f)) == SumSet(Indices(t.validators), VoterStake(t, env, f))
  {
    hide Final, Succeeds, Interleaves, GetValidatorStatus, ActiveIncrements, ActiveIn, ValidatorState.BaseReward, SumSet, Earns, CommitteesFor;
    var curr, prev := DutiesAt(Final(env, tr), env.epoch), DutiesAt(Final(env, tr), env.epoch - 1);
    forall v | v in Indices(t.validators)
      ensures v in curr
    {
      RoundState(env, t, tr, v);
    }
    forall v
      ensures VoterBalance(curr, prev, f)(v) == VoterStake(t, env, f)(v)
    {
      StakeIsBalance(env, t, tr, f, v);
      hide VoterBalance, VoterStake;
    }
    SumSetSupport(Indices(t.validators), curr.Keys, VoterStake(t, env, f));
    SumSetCongruent(curr.Keys, VoterBalance(curr, prev, f), VoterStake(t, env, f));
  }

  /** Participation at the end of a round, however the checks were interleaved: in Gwei, the effective balances of the
      unslashed validators for which some attestation in the blocks earned the flag in the previous epoch. */
  lemma RoundParticipation(env: Env, t: Inputs, tr: seq<Step>, m: EpochMeta, f: Flag)
    requires Succeeds(t, env) && Interleaves(tr, t, env) && WholeIncrements(t.validators)
    ensures Filled(env, tr, m) ==> GWEI_PER_INCREMENT * Part(m, f) == SumSet(Indices(t.validators), VoterStake(t, env, f))
  {
    if Filled(env, tr, m) {
      hide *;
      DutiesAreWhole(env, t, tr);
      SameSum(env, t, tr, f);
      FilledInGwei(env, t, tr, m, f);
    }
  }

  lemma FilledInGwei(env: Env, t: Inputs, tr: seq<Step>, m: EpochMeta, f: Flag)
    requires Succeeds(t, env) && Interleaves(tr, t, env)
    ensures var curr, prev := DutiesAt(Final(env, tr), env.epoch), DutiesAt(Final(env, tr), env.epoch - 1);
      Filled(env, tr, m) && Whole(curr) ==> GWEI_PER_INCREMENT * Part(m, f) == SumSet(curr.Keys, VoterBalance(curr, prev, f))
  {
    hide Final, Succeeds, Interleaves, AttSyncFilled, Whole, VoterBalance, SumSet, DutiesAt, MetaAt;
    NoneCounted(env, t, tr);
    var curr, prev := DutiesAt(Final(env, tr), env.epoch), DutiesAt(Final(env, tr), env.epoch - 1);
    if Filled(env, tr, m) && Whole(curr) {
      ParticipationIsBalance(MetaAt(Final(env, tr), env.epoch), m, curr, prev);
    }
  }

  // ---- never more than the active stake --------------------------------------------------------

  ghost function IncrementsIn(vs: seq<Validator>): int -> int {
    v => if 0 <= v < |vs| then vs[v].effectiveBalance / GWEI_PER_INCREMENT else 0
  }

  /** The active increments are the sum over the active validators. */
  lemma {:induction false} ActiveIncrementsAreSum(vs: seq<Validator>, epoch: int)
    ensures ActiveIncrements(vs, epoch) == SumSet(ActiveIn(vs, epoch), IncrementsIn(vs))
  {
    if vs == [] {
      assert ActiveIn(vs, epoch) == {};
    } else {
      var init, last, n := vs[..|vs| - 1], vs[|vs| - 1], |vs| - 1;
      ActiveIncrementsAreSum(init, epoch);
      SumSetCongruent(ActiveIn(init, epoch), IncrementsIn(init), IncrementsIn(vs));
      if SpecIsActive(last, epoch) {
        assert ActiveIn(vs, epoch) == ActiveIn(init, epoch) + {n};
        SumSetAdd(ActiveIn(init, epoch), n, IncrementsIn(vs));
      } else {
        assert ActiveIn(vs, epoch) == ActiveIn(init, epoch);
      }
    }
  }

  /** Everyone of the state who voted in the previous epoch is still active. */
  ghost predicate VotersActive(t: Inputs, env: Env) {
    forall v, f :: 0 <= v < |t.validators| && VotedWith(t, env, v, f) ==> SpecIsActive(t.validators[v], env.epoch)
  }

  lemma TakingIsActive(env: Env, t: Inputs, tr: seq<Step>, f: Flag, v: int)
    requires Succeeds(t, env) && Interleaves(tr, t, env) && VotersActive(t, env)
    ensures var curr, prev := DutiesAt(Final(env, tr), env.epoch), DutiesAt(Final(env, tr), env.epoch - 1);
      Taking(curr, prev, f)(v) <= if v in ActiveIn(t.validators, env.epoch) then IncrementsIn(t.validators)(v) else 0
    ensures v in ActiveIn(t.validators, env.epoch) ==> IncrementsIn(t.validators)(v) >= 0
  {
    hide Final, Succeeds, Interleaves, Earns, GetValidatorStatus, CommitteesFor, ActiveIncrements, ValidatorState.BaseReward;
    RoundState(env, t, tr, v);
    RoundFlags(env, t, tr, env.epoch - 1, v, f);
    assert VotedWith(t, env, v, f) <==> Has(Final(env, tr), env.epoch - 1, v, f);
  }

  lemma TakingWithinActive(env: Env, t: Inputs, tr: seq<Step>, f: Flag)
    requires Succeeds(t, env) && Interleaves(tr, t, env) && VotersActive(t, env)
    ensures var curr, prev := DutiesAt(Final(env, tr), env.epoch), DutiesAt(Final(env, tr), env.epoch - 1);
      SumSet(curr.Keys, Taking(curr, prev, f)) <= ActiveIncrements(t.validators, env.epoch)
  {
    hide *;
    var curr, prev := DutiesAt(Final(env, tr), env.epoch), DutiesAt(Final(env, tr), env.epoch - 1);
    ActiveIncrementsAreSum(t.validators, env.epoch);
    forall v
      ensures Taking(curr, prev, f)(v) <= if v in ActiveIn(t.validators, env.epoch) then IncrementsIn(t.validators)(v) else 0
      ensures v in ActiveIn(t.validators, env.epoch) ==> IncrementsIn(t.validators)(v) >= 0
    {
      TakingIsActive(env, t, tr, f, v);
    }
    SumSetWithin(curr.Keys, ActiveIn(t.validators, env.epoch), Taking(curr, prev, f), IncrementsIn(t.validators));
  }

  lemma FilledPart(env: Env, t: Inputs, tr: seq<Step>, m: EpochMeta, f: Flag)
    requires Succeeds(t, env) && Interleaves(tr, t, env)
    ensures var curr, prev := DutiesAt(Final(env, tr), env.epoch), DutiesAt(Final(env, tr), env.epoch - 1);
      Filled(env, tr, m) ==> Part(m, f) == SumSet(curr.Keys, Taking(curr, prev, f)) && m.state == MetaAt(Final(env, tr), env.epoch).state
  {
    hide Final, Succeeds, Interleaves, Taking, SumSet, DutiesAt, MetaAt, RewardsGrew, SyncedUpTo, SyncConstants.SyncReward;
    NoneCounted(env, t, tr);
  }

  lemma ActiveTotal(env: Env, t: Inputs, tr: seq<Step>)
    requires Succeeds(t, env) && Interleaves(tr, t, env)
    ensures MetaAt(Final(env, tr), env.epoch).state.totalIncrements == ActiveIncrements(t.validators, env.epoch)
  {
    hide Final, Succeeds, Interleaves, DutyAt, MetaAt, ActiveIncrements, ActiveIn, GetValidatorStatus, ValidatorState.BaseReward;
    SomeActive(t, env);
    RoundState(env, t, tr, 0);
  }

  /** If everyone who voted is still active, no participation exceeds the active increments that the state check stored. */
  lemma RoundParticipationWithinActive(env: Env, t: Inputs, tr: seq<Step>, m: EpochMeta, f: Flag)
    requires Succeeds(t, env) && Interleaves(tr, t, env) && VotersActive(t, env)
    ensures Filled(env, tr, m) ==> Part(m, f) <= m.state.totalIncrements == ActiveIncrements(t.validators, env.epoch)
  {
    if Filled(env, tr, m) {
      hide *;
      FilledPart(env, t, tr, m, f);
      ActiveTotal(env, t, tr);
      TakingWithinActive(env, t, tr, f);
    }
  }

  // ---- proposer rewards ------------------------------------------------------------------------

  /** A validator's effective balance times the base reward per increment. */
  ghost function StakeTimes(vs: seq<Validator>, perIncrement: nat): int -> nat {
    v => (if 0 <= v < |vs| then vs[v].effectiveBalance else 0) * perIncrement
  }

  lemma SameBalances(env: Env, t: Inputs, tr: seq<Step>, perIncrement: nat, f: Flag)
    requires Succeeds(t, env) && Interleaves(tr, t, env)
    ensures var st := Final(env, tr);
      ProposalRewards.FlagWorth(st, BalanceTimes(DutiesAt(st, env.epoch), perIncrement), f)
      == ProposalRewards.FlagWorth(st, StakeTimes(t.validators, perIncrement), f)
  {
    hide Final, Succeeds, Interleaves, GetValidatorStatus, ActiveIncrements, ActiveIn, ValidatorState.BaseReward, ProposalRewards.Flagged, SumSet;
    var st := Final(env, tr);
    var mine := ProposalRewards.PairWorth(BalanceTimes(DutiesAt(st, env.epoch), perIncrement), f.Weight());
    var theirs := ProposalRewards.PairWorth(StakeTimes(t.validators, perIncrement), f.Weight());
    forall p | p in ProposalRewards.Flagged(st, f)
      ensures mine(p) == theirs(p)
    {
      RoundState(env, t, tr, p.1);
    }
    SumSetCongruent(ProposalRewards.Flagged(st, f), mine, theirs);
  }

  /** The proposer rewards stored in a round, in terms of the effective balances in the state: 448 times their total is the
      worth of all flags, up to one rounding per attestation. */
  lemma RoundRewardsFromStake(env: Env, t: Inputs, tr: seq<Step>, m1: EpochMeta, m2: EpochMeta)
    requires Succeeds(t, env) && Interleaves(tr, t, env) && WholeIncrements(t.validators)
    ensures Filled(env, tr, m1) && ProposalFilled(m1, m2, DutiesAt(Final(env, tr), env.epoch)) ==>
            var perIncrement := SpecBaseRewardPerIncrement(t.validators, env.epoch);
            var total, worth := TotalRewards(m2.att.rewards), ProposalRewards.FlagsWorth(Final(env, tr), StakeTimes(t.validators, perIncrement));
      worth - 447 * |AggregatesFor(t, env)| * GWEI_PER_INCREMENT <= 448 * total * GWEI_PER_INCREMENT <= worth
  {
    if Filled(env, tr, m1) && ProposalFilled(m1, m2, DutiesAt(Final(env, tr), env.epoch)) {
      hide *;
      var st := Final(env, tr);
      var perIncrement := SpecBaseRewardPerIncrement(t.validators, env.epoch);
      RoundConservesProposerRewards(env, t, tr, m1, m2);
      BaseOfRound(env, t, tr, m1);
      DutiesAreWhole(env, t, tr);
      FlagsWorthIsBalance(st, DutiesAt(st, env.epoch), perIncrement);
      SameWorths(env, t, tr, perIncrement);
    }
  }

  lemma BaseOfRound(env: Env, t: Inputs, tr: seq<Step>, m: EpochMeta)
    requires Succeeds(t, env) && Interleaves(tr, t, env) && WholeIncrements(t.validators)
    ensures Filled(env, tr, m) ==> m.state.baseReward == SpecBaseRewardPerIncrement(t.validators, env.epoch)
  {
    SomeActive(t, env);
    RoundState(env, t, tr, 0);
    BaseRewardMatchesSpec(t.validators, env.epoch);
    hide Final, Succeeds, Interleaves, MetaAt, DutiesAt, ParticipationGrew, RewardsGrew, SyncedUpTo, ActiveIncrements, ActiveIn, GetValidatorStatus;
    hide ValidatorState.BaseReward, SpecBaseRewardPerIncrement, SyncConstants.SyncReward;
  }

  lemma SameWorths(env: Env, t: Inputs, tr: seq<Step>, perIncrement: nat)
    requires Succeeds(t, env) && Interleaves(tr, t, env)
    ensures var st := Final(env, tr);
      ProposalRewards.FlagsWorth(st, BalanceTimes(DutiesAt(st, env.epoch), perIncrement))
      == ProposalRewards.FlagsWorth(st, StakeTimes(t.validators, perIncrement))
  {
    hide Final, Succeeds, Interleaves, ProposalRewards.FlagWorth, BalanceTimes, StakeTimes;
    SameBalances(env, t, tr, perIncrement, SourceFlag);
    SameBalances(env, t, tr, perIncrement, TargetFlag);
    SameBalances(env, t, tr, perIncrement, HeadFlag);
  }

  // ---- attestation rewards ---------------------------------------------------------------------

  /** What happens to the store between the checks and the attestation rewards: the fill, and nothing to votes and states. */
  ghost predicate ReadyToSettle(env: Env, tr: seq<Step>, m: EpochMeta, mid: Storage) {
    && Filled(env, tr, m) && MetaAt(mid, env.epoch).state == m.state && MetaAt(mid, env.epoch).att.participation == m.att.participation
    && forall e, v :: DutyAt(mid, e, v).att == DutyAt(Final(env, tr), e, v).att && DutyAt(mid, e, v).state == DutyAt(Final(env, tr), e, v).state
  }

  lemma ReadyIs(env: Env, tr: seq<Step>, m: EpochMeta, mid: Storage, e: int, v: int)
    ensures ReadyToSettle(env, tr, m, mid) ==>
              && Filled(env, tr, m) && MetaAt(mid, env.epoch).state == m.state && MetaAt(mid, env.epoch).att.participation == m.att.participation
              && DutyAt(mid, e, v).att == DutyAt(Final(env, tr), e, v).att && DutyAt(mid, e, v).state == DutyAt(Final(env, tr), e, v).state
  {
    hide Filled, Final, MetaAt, DutyAt;
  }

  lemma VoteIs(env: Env, t: Inputs, tr: seq<Step>, v: int)
    requires Succeeds(t, env) && Interleaves(tr, t, env)
    ensures var vote := DutyAt(Final(env, tr), env.epoch - 1, v).att;
      && (vote.source == Some(true) <==> VotedWith(t, env, v, SourceFlag))
      && (vote.target == Some(true) <==> VotedWith(t, env, v, TargetFlag))
      && (vote.head == Some(true) <==> VotedWith(t, env, v, HeadFlag))
  {
    hide Final, Succeeds, Interleaves, Earns, DutyAt, CommitteesFor;
    RoundFlags(env, t, tr, env.epoch - 1, v, SourceFlag);
    RoundFlags(env, t, tr, env.epoch - 1, v, TargetFlag);
    RoundFlags(env, t, tr, env.epoch - 1, v, HeadFlag);
  }

  lemma StateIs(env: Env, t: Inputs, tr: seq<Step>, v: int)
    requires Succeeds(t, env) && Interleaves(tr, t, env) && 0 <= v < |t.validators|
    ensures var state := DutyAt(Final(env, tr), env.epoch, v).state;
      state.slashed == Some(t.validators[v].slashed) && state.effectiveBalance == Some(t.validators[v].effectiveBalance)
  {
    hide Final, Succeeds, Interleaves, GetValidatorStatus, ActiveIncrements, ActiveIn, ValidatorState.BaseReward, DutyAt, MetaAt;
    SomeActive(t, env);
    RoundState(env, t, tr, v);
  }

  /** The specification's reward for a vote with the flag. */
  ghost function SpecShare(t: Inputs, env: Env, m: EpochMeta, f: Flag, base: nat): nat
    requires Succeeds(t, env)
  {
    SomeActive(t, env);
    AttestationRewards.SpecReward(base, f.Weight(), Part(m, f), ActiveIncrements(t.validators, env.epoch))
  }

  lemma SharesAre(t: Inputs, env: Env, m: EpochMeta, base: nat)
    requires Succeeds(t, env) && ActiveIncrements(t.validators, env.epoch) > 0
    ensures var total, p := ActiveIncrements(t.validators, env.epoch), m.att.participation;
      && SpecShare(t, env, m, SourceFlag, base) == AttestationRewards.SpecReward(base, 14, p.source, total)
      && SpecShare(t, env, m, TargetFlag, base) == AttestationRewards.SpecReward(base, 26, p.target, total)
      && SpecShare(t, env, m, HeadFlag, base) == AttestationRewards.SpecReward(base, 14, p.head, total)
  {
    hide AttestationRewards.SpecReward, ActiveIncrements, Succeeds;
  }

  /** The rewards of all validators are calculated, and this one has data of the previous epoch. */
  ghost predicate Settles(st: Storage, st': Storage, epoch: int, v: int) {
    && MetaAt(st, epoch).state.totalIncrements > 0 && v in DutiesAt(st, epoch) && DutyAt(st, epoch - 1, v).att.happened.Some?
    && AttestationRewards.AllSettled(st, st', epoch, DutiesAt(st, epoch).Keys, AttestationRewards.ParticipationShares(MetaAt(st, epoch)))
  }

  lemma SettlesIs(st: Storage, st': Storage, epoch: int, v: int)
    requires Settles(st, st', epoch, v)
    ensures MetaAt(st, epoch).state.totalIncrements > 0 && v in DutiesAt(st, epoch) && DutyAt(st, epoch - 1, v).att.happened.Some?
    ensures AttestationRewards.AllSettled(st, st', epoch, DutiesAt(st, epoch).Keys, AttestationRewards.ParticipationShares(MetaAt(st, epoch)))
  {
    hide AttestationRewards.AllSettled, MetaAt, DutyAt;
  }

  lemma KnownBalance(known: Option<nat>, balance: nat, increments: nat)
    requires known == Some(balance) && GWEI_PER_INCREMENT * increments == balance
    ensures GWEI_PER_INCREMENT * increments <= known.GetOr(0) < GWEI_PER_INCREMENT * (increments + 1)
  {
  }

  /** Attestation rewards over a round, however the checks were interleaved: a validator whose vote of the previous epoch is
      settled earns, for each flag with which some attestation in the blocks shows its vote, the specification's reward or one
      unit less; and it is penalised exactly as specified for the others. A slashed validator counts as one without a vote. */
  lemma RoundAttestationRewards(env: Env, t: Inputs, tr: seq<Step>, m: EpochMeta, mid: Storage, st': Storage, v: int, increments: nat, base: nat)
    requires Succeeds(t, env) && Interleaves(tr, t, env) && WholeIncrements(t.validators) && 0 <= v < |t.validators|
    requires GWEI_PER_INCREMENT * increments == t.validators[v].effectiveBalance
    requires base == SpecBaseRewardPerIncrement(t.validators, env.epoch) * increments
    ensures ReadyToSettle(env, tr, m, mid) && Settles(mid, st', env.epoch, v) ==>
              var r, counted := DutyAt(st', env.epoch, v).attRewards, !t.validators[v].slashed;
              var source, target := counted && VotedWith(t, env, v, SourceFlag), counted && VotedWith(t, env, v, TargetFlag);
              var head := counted && VotedWith(t, env, v, HeadFlag);
              var spec := (if source then SpecShare(t, env, m, SourceFlag, base) else 0)
                          + (if target then SpecShare(t, env, m, TargetFlag, base) else 0)
                          + (if head then SpecShare(t, env, m, HeadFlag, base) else 0);
              var flags := (if source then 1 else 0) + (if target then 1 else 0) + (if head then 1 else 0);
              && r.earned.Some? && (base * 26 < 64 * AttestationRewards.FIXED_ONE ==> spec - flags <= r.earned.value <= spec)
              && r.penalty == Some((if source then 0 else AttestationRewards.SpecPenalty(base, 14))
                                   + (if target then 0 else AttestationRewards.SpecPenalty(base, 26)))
  {
    hide *;
    if ReadyToSettle(env, tr, m, mid) && Settles(mid, st', env.epoch, v) {
      ReadyIs(env, tr, m, mid, env.epoch, v);
      ReadyIs(env, tr, m, mid, env.epoch - 1, v);
      SettlesIs(mid, st', env.epoch, v);
      FilledPart(env, t, tr, m, SourceFlag);
      SomeActive(t, env);
      ActiveTotal(env, t, tr);
      BaseOfRound(env, t, tr, m);
      VoteIs(env, t, tr, v);
      StateIs(env, t, tr, v);
      SharesAre(t, env, m, base);
      KnownBalance(DutyAt(mid, env.epoch, v).state.effectiveBalance, t.validators[v].effectiveBalance, increments);
      AttestationRewards.SettledRewards(mid, st', env.epoch, v, increments, base);
    }
  }
}
