/** A whole round over one epoch: the five checks in any interleaving, then the two fills. */
module Round {
  import opened Constants
  import opened Options
  import opened Sums
  import opened Summary
  import opened AttestationConstants
  import opened Attestation
  import opened AttestationAccounting
  import opened AttestationMeaning
  import opened DutyMetadata
  import opened Steps
  import opened Interleaving
  import AttestationRewards
  import ProposalRewards
  import Sync
  import SyncConstants

  /** The store at the end of a run of the event loop from a cleared one. */
  function Final(env: Env, tr: seq<Step>): Storage {
    Run(Shared(map[], map[]), env, tr).st
  }

  /** The metadata after `fillAttestationAndSyncMetadata`. */
  ghost predicate Filled(env: Env, tr: seq<Step>, m: EpochMeta) {
    var st := Final(env, tr);
    AttSyncFilled(MetaAt(st, env.epoch), m, DutiesAt(st, env.epoch), DutiesAt(st, env.epoch - 1))
  }

  // ---- the votes -------------------------------------------------------------------------------

  /** Neither the state, sync, proposer and withdrawal checks nor their metadata touch a vote or a list. */
  ghost predicate SameVotes(st: Storage, st': Storage, epoch: int) {
    && (forall te, v :: AttAt(st', te, v) == AttAt(st, te, v))
    && MetaAt(st', epoch).att == MetaAt(st, epoch).att
  }

  predicate LeavesVotes(s: Step) {
    IsPlain(s) && !IsMember(s)
  }

  lemma PlainLeavesVotes(st: Storage, epoch: int, s: Step)
    requires LeavesVotes(s)
    ensures SameVotes(st, ApplyPlain(st, epoch, s), epoch)
  {
    ApplyIsWrite(st, epoch, s);
    hide ApplyPlain;
    if OnRecord(s) {
      var (e, u) := Place(s, epoch);
      BlindToVotes(s, epoch, DutyAt(st, e, u), NO_ATT);
      forall te, v
        ensures AttAt(ApplyPlain(st, epoch, s), te, v) == AttAt(st, te, v)
      {
        DutyAfterWrite(st, e, u, Act(s, epoch, DutyAt(st, e, u)), te, v);
        hide Act, WithDuty, DutyAt;
      }
      DutyAfterWrite(st, e, u, Act(s, epoch, DutyAt(st, e, u)), epoch, 0);
      hide Act, WithDuty, DutyAt, MetaAt;
    } else {
      forall te, v
        ensures AttAt(ApplyPlain(st, epoch, s), te, v) == AttAt(st, te, v)
      {
        DutyAfterMeta(st, epoch, ActMeta(s, MetaAt(st, epoch)), te, v);
        hide WithMeta, DutyAt, ActMeta;
      }
      DutyAfterMeta(st, epoch, ActMeta(s, MetaAt(st, epoch)), epoch, 0);
      hide WithMeta, DutyAt;
    }
  }

  lemma {:induction false} RunLeavesVotes(sh: Shared, env: Env, tr: seq<Step>)
    requires forall i :: 0 <= i < |tr| ==> LeavesVotes(tr[i])
    ensures SameVotes(sh.st, Run(sh, env, tr).st, env.epoch)
  {
    hide ApplyPlain, AttAt;
    if tr != [] {
      RunLeavesVotes(sh, env, tr[..|tr| - 1]);
      PlainLeavesVotes(Run(sh, env, tr[..|tr| - 1]).st, env.epoch, tr[|tr| - 1]);
    }
  }

  ghost function Rest(t: Inputs, env: Env): seq<Step>
    requires Succeeds(t, env)
  {
    StrandOf(t, env, SyncLane) + StrandOf(t, env, ProposeLane) + StrandOf(t, env, WithdrawLane)
  }

  lemma RestLeavesVotes(t: Inputs, env: Env)
    requires Succeeds(t, env)
    ensures forall i :: 0 <= i < |Rest(t, env)| ==> LeavesVotes(Rest(t, env)[i])
    ensures forall i :: 0 <= i < |StrandOf(t, env, StateLane)| ==> LeavesVotes(StrandOf(t, env, StateLane)[i])
    ensures SecondHalf(t, env) == StrandOf(t, env, FoldLane) + Rest(t, env)
  {
    hide StrandOf, Succeeds, AllInOwnEpoch;
    StrandsAreInLane(t, env, StateLane);
    StrandsAreInLane(t, env, SyncLane);
    StrandsAreInLane(t, env, ProposeLane);
    StrandsAreInLane(t, env, WithdrawLane);
  }

  /** The store after the fold alone. */
  ghost function Folded(t: Inputs, env: Env): Storage
    requires Succeeds(t, env)
  {
    RunAll(AfterMembers(map[], env, t), env.epoch, AggregatesFor(t, env))
  }

  /** The votes and lists at the end of a round are those of the fold alone. */
  lemma RoundVotes(env: Env, t: Inputs, tr: seq<Step>)
    requires Succeeds(t, env) && Interleaves(tr, t, env)
    ensures SameVotes(Folded(t, env), Final(env, tr), env.epoch)
  {
    var sh := Shared(map[], map[]);
    var before := Shared(AfterMembers(map[], env, t), CommitteesFor(t));
    hide Run, RunAll, AfterMembers, FirstHalf, SecondHalf, Rest, OneAfterAnother, Succeeds, SameVotes, Interleaves, AllIn, AllInOwnEpoch;
    hide AggregatesFor, CommitteesFor, StrandOf, LeavesVotes;
    AnyInterleaving(map[], env, t, tr);
    OrderlyResult(map[], env, t);
    FirstResult(map[], env, t);
    FoldStrandRun(before, env, t);
    RestLeavesVotes(t, env);
    RunConcat(sh, env, FirstHalf(t, env), SecondHalf(t, env));
    RunConcat(before, env, StrandOf(t, env, FoldLane), Rest(t, env));
    RunLeavesVotes(before.(st := Folded(t, env)), env, Rest(t, env));
  }

  lemma AfterState(env: Env, t: Inputs, te: int, v: int)
    requires Succeeds(t, env)
    ensures var st := ValidatorState.StateChecked(map[], env.epoch, t.validators);
      AttAt(st, te, v) == NO_ATT && MetaAt(st, env.epoch).att == InitInfo(env.epoch).meta.att
  {
    var sh := Shared(map[], map[]);
    hide Run, ValidatorState.StateChecked, StrandOf, Rest, SecondHalf, AllResolve, ValidatorState.ActiveIncrements, AllIn, AllInOwnEpoch, LeavesVotes;
    RestLeavesVotes(t, env);
    StateStrandRun(sh, env, t);
    RunLeavesVotes(sh, env, StrandOf(t, env, StateLane));
    var st := ValidatorState.StateChecked(map[], env.epoch, t.validators);
    assert AttAt(st, te, v) == AttAt(map[], te, v);
  }

  /** When the fold starts there is no vote yet, and an empty list and no reward for every block. */
  lemma FreshStart(env: Env, t: Inputs, te: int, v: int)
    requires Succeeds(t, env)
    ensures var before := AfterMembers(map[], env, t);
      && AttAt(before, te, v) == NO_ATT.(happened := if IsExpected(env.epoch, t.prev, t.curr, te, v) then Some(false) else None)
      && MetaAt(before, env.epoch).att == InitInfo(env.epoch).meta.att
  {
    hide ExpectCommittees, AllResolve, Member, AttAt, MetaAt, InitInfo;
    AfterState(env, t, te, v);
    var epoch := env.epoch;
    var st1 := ValidatorState.StateChecked(map[], epoch, t.validators);
    var st2 := ExpectCommittees(st1, epoch - 1, t.prev);
    hide ValidatorState.StateChecked;
    ExpectMarks(st1, epoch - 1, t.prev, te, v);
    ExpectMarks(st2, epoch, t.curr, te, v);
    ExpectKeepsMeta(st1, epoch - 1, t.prev, epoch);
    ExpectKeepsMeta(st2, epoch, t.curr, epoch);
  }

  /** The attestations of a round are those that count in its blocks. */
  lemma SameWork(env: Env, t: Inputs)
    requires Succeeds(t, env)
    ensures Attestations(t, env) == AttsIn(t.attestations, env.epoch, env.forks)
    ensures AllResolve(AttsIn(t.attestations, env.epoch, env.forks), CommitteesFor(t), env.canon, env.forks)
    ensures AggregatesFor(t, env) == Aggregates(AttsIn(t.attestations, env.epoch, env.forks), CommitteesFor(t), env.canon, env.forks)
  {
    hide RelevantOf, Collected, AddCommittees, AllResolve, ValidatorState.ActiveIncrements;
  }

  /** After a round, however the checks were interleaved, a flag is set exactly when some attestation in the blocks earned it. */
  lemma RoundFlags(env: Env, t: Inputs, tr: seq<Step>, te: int, v: int, f: Flag)
    requires Succeeds(t, env) && Interleaves(tr, t, env)
    ensures Has(Final(env, tr), te, v, f) <==> Earns(t.attestations, CommitteesFor(t), env.canon, env.forks, env.epoch, te, v, f)
  {
    SameWork(env, t);
    hide Final, AfterMembers, RunAll, Succeeds, Interleaves, IsExpected, AggregatesFor, CommitteesFor, AttsIn, Earns, SomeEarned;
    RoundVotes(env, t, tr);
    FreshStart(env, t, te, v);
    FlagMeaning(AfterMembers(map[], env, t), env.epoch, AggregatesFor(t, env), te, v, f);
    EarnedInBlocks(t.attestations, CommitteesFor(t), env.canon, env.forks, env.epoch, te, v, f);
    hide AttAt;
  }

  /** For blocks the chain accepts, and one committee per validator and epoch, every record then says what the attestations
      in the blocks say: who attested, with which flags, and with which least delay. */
  lemma RoundVoteMeaning(env: Env, t: Inputs, tr: seq<Step>, te: int, v: int)
    requires Succeeds(t, env) && Interleaves(tr, t, env)
    requires OneCommittee(CommitteesFor(t)) && BlocksValid(t.attestations, env.epoch)
    ensures RecordSays(AttAt(Final(env, tr), te, v), t.attestations, CommitteesFor(t), env.canon, env.forks, env.epoch, te, v,
                       IsExpected(env.epoch, t.prev, t.curr, te, v))
  {
    SameWork(env, t);
    hide *;
    var aggs, expected := AggregatesFor(t, env), IsExpected(env.epoch, t.prev, t.curr, te, v);
    ValidBlocksAscend(t.attestations, CommitteesFor(t), env.canon, env.forks, env.epoch);
    RecordOfFold(env, t, tr, te, v);
    SaysOfBlocks(AttAt(Final(env, tr), te, v), t.attestations, CommitteesFor(t), env.canon, env.forks, env.epoch, te, v, expected);
  }

  lemma RecordOfFold(env: Env, t: Inputs, tr: seq<Step>, te: int, v: int)
    requires Succeeds(t, env) && Interleaves(tr, t, env) && DelaysAscend(AggregatesFor(t, env))
    ensures RecordMeans(AttAt(Final(env, tr), te, v), AggregatesFor(t, env), te, v, IsExpected(env.epoch, t.prev, t.curr, te, v))
  {
    hide Final, AfterMembers, RunAll, Succeeds, Interleaves, IsExpected, RecordMeans, AttAt, DelaysAscend, AggregatesFor, CommitteesFor;
    RoundVotes(env, t, tr);
    FreshStart(env, t, te, v);
    FoldMeaning(AfterMembers(map[], env, t), env.epoch, AggregatesFor(t, env), te, v, IsExpected(env.epoch, t.prev, t.curr, te, v));
  }

  lemma {:induction false} RunIsShaped(env: Env, t: Inputs, te: int, v: int)
    requires Succeeds(t, env)
    ensures AttestationRewards.Shaped(AttAt(Folded(t, env), te, v))
  {
    hide Succeeds, AfterMembers, AggregatesFor, IsExpected, RunAll;
    FreshStart(env, t, te, v);
    AttestationRewards.RunKeepsShape(AfterMembers(map[], env, t), env.epoch, AggregatesFor(t, env), te, v);
  }

  /** A round leaves only complete votes, expectations without a vote, and records without a committee; this is what the
      settlement of the rewards starts from. */
  lemma RoundIsShaped(env: Env, t: Inputs, tr: seq<Step>, te: int, v: int)
    requires Succeeds(t, env) && Interleaves(tr, t, env)
    ensures AttestationRewards.Shaped(AttAt(Final(env, tr), te, v))
  {
    hide Succeeds, Interleaves, Folded, Final, AttAt;
    RoundVotes(env, t, tr);
    RunIsShaped(env, t, te, v);
    hide AttestationRewards.Shaped;
  }

  lemma AggregateFlags(env: Env, t: Inputs, i: nat)
    requires Succeeds(t, env) && i < |AggregatesFor(t, env)|
    ensures var flags := AggregatesFor(t, env)[i].flags; flags.head ==> flags.source && flags.target
  {
    hide CommitteesOf, Attesting, Flatten, Attestations, CommitteesFor;
  }

  /** Head participation never exceeds source or target participation after a round. */
  lemma RoundHeadParticipation(env: Env, t: Inputs, tr: seq<Step>, m: EpochMeta)
    requires Succeeds(t, env) && Interleaves(tr, t, env)
    ensures Filled(env, tr, m) ==>
              m.att.participation.head <= m.att.participation.source && m.att.participation.head <= m.att.participation.target
  {
    if Filled(env, tr, m) {
      var epoch, st, before, aggs := env.epoch, Final(env, tr), AfterMembers(map[], env, t), AggregatesFor(t, env);
      forall i | 0 <= i < |aggs|
        ensures aggs[i].flags.head ==> aggs[i].flags.source && aggs[i].flags.target
      {
        AggregateFlags(env, t, i);
        hide AggregatesFor;
      }
      hide Run, AfterMembers, AggregatesFor, RunAll, Succeeds, Interleaves, IsExpected;
      RoundVotes(env, t, tr);
      FreshStart(env, t, 0, 0);
      RunAllKeepsRewards(before, epoch, aggs);
      forall v: int {:trigger Has(st, epoch - 1, v, HeadFlag)}
        ensures Has(st, epoch - 1, v, HeadFlag) ==> Has(st, epoch - 1, v, SourceFlag) && Has(st, epoch - 1, v, TargetFlag)
      {
        FreshStart(env, t, epoch - 1, v);
        HeadImpliesOthers(before, epoch, aggs, epoch - 1, v);
        hide AttAt;
      }
      HeadParticipationIsLeast(st, epoch);
      hide Has, Taking, SumSet, DutiesAt, RewardsGrew, SyncedUpTo;
    }
  }

  lemma SameFlagsWorth(st: Storage, st': Storage, epoch: int, base: int -> nat)
    requires SameVotes(st, st', epoch)
    ensures ProposalRewards.FlagsWorth(st', base) == ProposalRewards.FlagsWorth(st, base)
  {
    hide AttAt, Known;
    ProposalRewards.SameFlags(st, st', SourceFlag);
    ProposalRewards.SameFlags(st, st', TargetFlag);
    ProposalRewards.SameFlags(st, st', HeadFlag);
    hide ProposalRewards.Flagged, ProposalRewards.PairWorth;
  }

  /** Conservation of proposer rewards over a round from the cleared store, however the checks were interleaved: the
      attestation rewards stored for all blocks are what the votes in the store are worth, over 448, up to one
      rounding per attestation. */
  lemma RoundConservesProposerRewards(env: Env, t: Inputs, tr: seq<Step>, m1: EpochMeta, m2: EpochMeta)
    requires Succeeds(t, env) && Interleaves(tr, t, env)
    ensures Filled(env, tr, m1) && ProposalFilled(m1, m2, DutiesAt(Final(env, tr), env.epoch)) ==>
            var st := Final(env, tr);
            var total, worth := TotalRewards(m2.att.rewards), ProposalRewards.FlagsWorth(st, BaseReward(DutiesAt(st, env.epoch), m1.state.baseReward));
      worth - 447 * |AggregatesFor(t, env)| <= 448 * total <= worth
  {
    if Filled(env, tr, m1) && ProposalFilled(m1, m2, DutiesAt(Final(env, tr), env.epoch)) {
      hide Final, Folded, AggregatesFor, Interleaves, Succeeds, ProposalFilled, SameVotes;
      var epoch, st, folded := env.epoch, Final(env, tr), Folded(t, env);
      var base := BaseReward(DutiesAt(st, epoch), m1.state.baseReward);
      ListsInTheEnd(env, t, tr, m1);
      InitIsEmpty(epoch);
      hide Filled, BaseReward, ProposalRewards.FlagsWorth, ProposalRewards.TotalWorth, InitInfo, DutiesAt, TotalRewards, Window;
      RoundVotes(env, t, tr);
      SameFlagsWorth(folded, st, epoch, base);
      FoldedConserves(env, t, base);
      StoredIsTotal(m1, m2, DutiesAt(st, epoch));
    }
  }

  /** The first fill works on the lists of the fold, and on rewards that are still zero. */
  lemma ListsInTheEnd(env: Env, t: Inputs, tr: seq<Step>, m: EpochMeta)
    requires Succeeds(t, env) && Interleaves(tr, t, env)
    ensures Filled(env, tr, m) ==>
              && m.att.attestations == ListsAt(Folded(t, env), env.epoch) && m.att.rewards == InitInfo(env.epoch).meta.att.rewards
              && m.att.attestations.Keys == m.att.rewards.Keys
  {
    if Filled(env, tr, m) {
      FilledKeepsLists(env, tr, m);
      assert ListsAt(Folded(t, env), env.epoch) == MetaAt(Folded(t, env), env.epoch).att.attestations;
      hide *;
      EndsAsFolded(env, t, tr);
      FoldedRewards(env, t);
    }
  }

  lemma EndsAsFolded(env: Env, t: Inputs, tr: seq<Step>)
    requires Succeeds(t, env) && Interleaves(tr, t, env)
    ensures MetaAt(Final(env, tr), env.epoch).att == MetaAt(Folded(t, env), env.epoch).att
  {
    hide Final, Folded, Succeeds, Interleaves, AttAt, MetaAt;
    RoundVotes(env, t, tr);
  }

  /** The fold files lists for the blocks of the window and pays nothing yet. */
  lemma FoldedRewards(env: Env, t: Inputs)
    requires Succeeds(t, env)
    ensures var att := MetaAt(Folded(t, env), env.epoch).att;
      att.rewards == InitInfo(env.epoch).meta.att.rewards && att.attestations.Keys == att.rewards.Keys
  {
    hide Succeeds, AfterMembers, AggregatesFor, RunAll, MetaAt, AttAt, IsExpected, InitInfo;
    RunAllKeepsRewards(AfterMembers(map[], env, t), env.epoch, AggregatesFor(t, env));
    FreshStart(env, t, 0, 0);
    InitIsEmpty(env.epoch);
  }

  lemma InitIsEmpty(epoch: int)
    ensures var att := InitInfo(epoch).meta.att;
      && att.rewards.Keys == att.attestations.Keys == Window(epoch)
      && (forall b :: b in att.rewards ==> att.rewards[b] == 0)
      && (forall b :: b in att.attestations ==> att.attestations[b] == [])
  {
  }

  lemma FilledKeepsLists(env: Env, tr: seq<Step>, m: EpochMeta)
    requires Filled(env, tr, m)
    ensures var att := MetaAt(Final(env, tr), env.epoch).att; m.att.attestations == att.attestations && m.att.rewards == att.rewards
  {
    hide ParticipationGrew, RewardsGrew, SyncedUpTo, Final, MetaAt, DutiesAt;
  }

  /** Every aggregate of a round sits in a block of its window. */
  lemma AggregateBlocks(env: Env, t: Inputs, lists: map<int, seq<Credit>>)
    requires Succeeds(t, env) && lists.Keys >= Window(env.epoch)
    ensures forall i :: 0 <= i < |AggregatesFor(t, env)| ==> AggregatesFor(t, env)[i].block in lists
  {
    hide Resolve, Collected, RelevantOf, Window, AddCommittees;
    CollectedArePlaced(t.attestations, env.epoch, env.forks, lists);
    var atts, committees := Attestations(t, env), CommitteesFor(t);
    forall i | 0 <= i < |AggregatesFor(t, env)|
      ensures AggregatesFor(t, env)[i].block in lists
    {
      ResolveSucceeds(atts[i], committees, env.canon, env.forks);
      assert AggregatesFor(t, env)[i] == Resolve(atts[i], committees, env.canon, env.forks).value;
    }
  }

  lemma FoldedConserves(env: Env, t: Inputs, base: int -> nat)
    requires Succeeds(t, env)
    ensures var folded := Folded(t, env);
            var rewards, worth := ProposalRewards.TotalWorth(ListsAt(folded, env.epoch), ProposalRewards.Share(base)), ProposalRewards.FlagsWorth(folded, base);
      worth - 447 * |AggregatesFor(t, env)| <= 448 * rewards <= worth
  {
    var epoch, before, aggs := env.epoch, AfterMembers(map[], env, t), AggregatesFor(t, env);
    hide AfterMembers, Succeeds, AggregatesFor;
    forall te, v, f
      ensures !Has(before, te, v, f)
    {
      FreshStart(env, t, te, v);
      hide AttAt;
    }
    FreshStart(env, t, 0, 0);
    InitIsEmpty(epoch);
    AggregateBlocks(env, t, ListsAt(before, epoch));
    hide Has, InitInfo, InWindow, Window;
    ProposalRewards.ProposerRewardConservation(before, epoch, aggs, base);
  }

  // ---- the sync part ---------------------------------------------------------------------------

  /** No step outside the sync strand touches a sync field. */
  ghost predicate SameSync(st: Storage, st': Storage, epoch: int) {
    && (forall e, v :: DutyAt(st', e, v).sync == DutyAt(st, e, v).sync)
    && MetaAt(st', epoch).sync == MetaAt(st, epoch).sync
  }

  lemma FoldLeavesSync(st: Storage, epoch: int, agg: Aggregate)
    ensures SameSync(st, RunAggregate(st, epoch, agg), epoch)
  {
    forall e, v
      ensures DutyAt(RunAggregate(st, epoch, agg), e, v).sync == DutyAt(st, e, v).sync
    {
      RunAggregateRecord(st, epoch, agg, e, v);
      hide RunAggregate, DutyAt;
    }
    var w := IncludeAll(World(st, NO_CREDIT), agg.targetEpoch, agg.members, agg.incDelay, agg.flags);
    IncludeAllKeepsMeta(World(st, NO_CREDIT), agg.targetEpoch, agg.members, agg.incDelay, agg.flags, epoch);
    CloseIsWrite(w.st, epoch, agg.block, w.credit);
    DutyAfterMeta(w.st, epoch, Filed(MetaAt(w.st, epoch), agg.block, w.credit), epoch, 0);
    hide DutyAt, IncludeAll, Close, WithMeta, MetaAt;
  }

  lemma PlainLeavesSync(st: Storage, epoch: int, s: Step)
    requires IsPlain(s) && LaneOf(s) != SyncLane
    ensures SameSync(st, ApplyPlain(st, epoch, s), epoch)
  {
    ApplyIsWrite(st, epoch, s);
    hide ApplyPlain;
    if OnRecord(s) {
      var (e, u) := Place(s, epoch);
      assert Act(s, epoch, DutyAt(st, e, u)).sync == DutyAt(st, e, u).sync;
      forall e', v
        ensures DutyAt(ApplyPlain(st, epoch, s), e', v).sync == DutyAt(st, e', v).sync
      {
        DutyAfterWrite(st, e, u, Act(s, epoch, DutyAt(st, e, u)), e', v);
        hide Act, WithDuty, DutyAt;
      }
      DutyAfterWrite(st, e, u, Act(s, epoch, DutyAt(st, e, u)), epoch, 0);
      hide Act, WithDuty, DutyAt, MetaAt;
    } else {
      forall e', v
        ensures DutyAt(ApplyPlain(st, epoch, s), e', v).sync == DutyAt(st, e', v).sync
      {
        DutyAfterMeta(st, epoch, ActMeta(s, MetaAt(st, epoch)), e', v);
        hide WithMeta, DutyAt, ActMeta;
      }
      DutyAfterMeta(st, epoch, ActMeta(s, MetaAt(st, epoch)), epoch, 0);
      hide WithMeta, DutyAt;
    }
  }

  lemma StepLeavesSync(sh: Shared, env: Env, s: Step)
    requires LaneOf(s) != SyncLane
    ensures SameSync(sh.st, Apply(sh, env, s).st, env.epoch)
  {
    hide ApplyPlain, RunAggregate, Resolve, DutyAt, MetaAt;
    if s.FoldOne? {
      var agg := Resolve(s.att, sh.committees, env.canon, env.forks);
      if agg.Some? {
        FoldLeavesSync(sh.st, env.epoch, agg.value);
      }
    } else if IsPlain(s) {
      PlainLeavesSync(sh.st, env.epoch, s);
    }
  }

  lemma {:induction false} RunLeavesSync(sh: Shared, env: Env, tr: seq<Step>)
    requires forall i :: 0 <= i < |tr| ==> LaneOf(tr[i]) != SyncLane
    ensures SameSync(sh.st, Run(sh, env, tr).st, env.epoch)
  {
    hide Apply, DutyAt, LaneOf;
    if tr != [] {
      RunLeavesSync(sh, env, tr[..|tr| - 1]);
      StepLeavesSync(Run(sh, env, tr[..|tr| - 1]), env, tr[|tr| - 1]);
    }
  }

  /** Two stretches of independent steps may be swapped. */
  lemma {:induction false} StretchesCommute(sh: Shared, env: Env, a: seq<Step>, b: seq<Step>)
    requires forall i, j :: 0 <= i < |a| && 0 <= j < |b| ==> Independent(a[i], b[j])
    requires AllInOwnEpoch(a, env.epoch) && AllInOwnEpoch(b, env.epoch)
    ensures Run(Run(sh, env, a), env, b) == Run(Run(sh, env, b), env, a)
  {
    hide Apply, Independent, InOwnEpoch;
    if a != [] {
      var init, s := a[..|a| - 1], a[|a| - 1];
      StretchesCommute(sh, env, init, b);
      TakenEarlier(Run(sh, env, init), env, b, s);
    }
  }

  ghost function BeforeSync(t: Inputs, env: Env): seq<Step>
    requires Succeeds(t, env)
  {
    FirstHalf(t, env) + StrandOf(t, env, FoldLane) + (StrandOf(t, env, ProposeLane) + StrandOf(t, env, WithdrawLane))
  }

  lemma BeforeSyncHasNone(t: Inputs, env: Env)
    requires Succeeds(t, env)
    ensures forall i :: 0 <= i < |BeforeSync(t, env)| ==> LaneOf(BeforeSync(t, env)[i]) != SyncLane
    ensures var sync, rest := StrandOf(t, env, SyncLane), StrandOf(t, env, ProposeLane) + StrandOf(t, env, WithdrawLane);
      && (forall i, j :: 0 <= i < |sync| && 0 <= j < |rest| ==> Independent(sync[i], rest[j]))
      && AllInOwnEpoch(sync, env.epoch) && AllInOwnEpoch(rest, env.epoch)
  {
    hide StrandOf, Succeeds, InOwnEpoch;
    forall lane
      ensures AllIn(StrandOf(t, env, lane), lane) && AllInOwnEpoch(StrandOf(t, env, lane), env.epoch)
    {
      StrandsAreInLane(t, env, lane);
    }
  }

  /** The round ends as if the sync check had run last. */
  lemma SyncLast(env: Env, t: Inputs, tr: seq<Step>)
    requires Succeeds(t, env) && Interleaves(tr, t, env)
    ensures Final(env, tr)
         == Sync.SyncChecked(Final(env, BeforeSync(t, env)), env.epoch, t.committee, Sync.BlocksOf(env.epoch, t.syncBits))
  {
    hide Run, FirstHalf, SecondHalf, BeforeSync, OneAfterAnother, Sync.SyncChecked, Sync.BlocksOf, StrandOf, Succeeds, Interleaves, Independent, LaneOf;
    hide AllIn, AllInOwnEpoch;
    AnyInterleaving(map[], env, t, tr);
    OrderlyResult(map[], env, t);
    BeforeSyncHasNone(t, env);
    SyncStrandRun(Run(Shared(map[], map[]), env, BeforeSync(t, env)), env, t);
    HalvesRegrouped(t, env);
    SwapTail(env, FirstHalf(t, env) + StrandOf(t, env, FoldLane), StrandOf(t, env, SyncLane),
             StrandOf(t, env, ProposeLane) + StrandOf(t, env, WithdrawLane));
  }

  lemma HalvesRegrouped(t: Inputs, env: Env)
    requires Succeeds(t, env)
    ensures var before, rest := FirstHalf(t, env) + StrandOf(t, env, FoldLane), StrandOf(t, env, ProposeLane) + StrandOf(t, env, WithdrawLane);
      && FirstHalf(t, env) + SecondHalf(t, env) == before + StrandOf(t, env, SyncLane) + rest
      && BeforeSync(t, env) == before + rest
  {
    hide StrandOf, FirstHalf, Succeeds;
  }

  lemma SwapTail(env: Env, before: seq<Step>, a: seq<Step>, b: seq<Step>)
    requires forall i, j :: 0 <= i < |a| && 0 <= j < |b| ==> Independent(a[i], b[j])
    requires AllInOwnEpoch(a, env.epoch) && AllInOwnEpoch(b, env.epoch)
    ensures var sh := Shared(map[], map[]); Run(sh, env, before + a + b) == Run(Run(sh, env, before + b), env, a)
  {
    hide Run, Independent, AllInOwnEpoch;
    var sh := Shared(map[], map[]);
    RunConcat(sh, env, before + a, b);
    RunConcat(sh, env, before, a);
    RunConcat(sh, env, before, b);
    StretchesCommute(Run(sh, env, before), env, a, b);
  }

  /** What the specification pays a block for its sync aggregate; nothing to a slot of another epoch or without a block. */
  function SpecSyncReward(state: StateMeta, blocks: map<int, seq<bool>>, epoch: int, b: int, seats: nat): int {
    if b / SLOTS_PER_EPOCH == epoch && b in blocks
    then SyncConstants.SpecProposerReward(state.totalIncrements, state.baseReward) * Sync.SetBits(blocks[b], seats)
    else 0
  }

  /** Over a round from the cleared store, however the checks were interleaved: the sync reward stored for a block
      is the specification's proposer reward for one sync bit times the bits set in that block, even when
      validators hold several seats. A slot without a block gets nothing. */
  lemma RoundSyncRewards(env: Env, t: Inputs, tr: seq<Step>, m: EpochMeta, b: int)
    requires Succeeds(t, env) && Interleaves(tr, t, env)
    ensures Filled(env, tr, m) && InWindow(env.epoch, b) ==>
              b in m.sync.rewards
              && m.sync.rewards[b] == SpecSyncReward(MetaAt(Final(env, tr), env.epoch).state, t.syncBits, env.epoch, b, |t.committee|)
  {
    if Filled(env, tr, m) && InWindow(env.epoch, b) {
      hide *;
      var epoch, before, st := env.epoch, Final(env, BeforeSync(t, env)), Final(env, tr);
      var perSync := SyncConstants.SpecProposerReward(MetaAt(st, epoch).state.totalIncrements, MetaAt(st, epoch).state.baseReward);
      FilledGrew(env, tr, m);
      SyncLast(env, t, tr);
      BeforeSyncIsClear(env, t, b);
      CheckedKeepsRewards(before, epoch, t.committee, Sync.BlocksOf(epoch, t.syncBits));
      Sync.BlockSyncReward(before, epoch, t.committee, t.syncBits, MetaAt(st, epoch).sync.rewards, m.sync.rewards, perSync, b);
      SpecSyncRewardIs(MetaAt(st, epoch).state, t.syncBits, epoch, b, |t.committee|);
    }
  }

  lemma SpecSyncRewardIs(state: StateMeta, blocks: map<int, seq<bool>>, epoch: int, b: int, seats: nat)
    ensures SpecSyncReward(state, blocks, epoch, b, seats)
         == if b / SLOTS_PER_EPOCH == epoch && b in blocks
            then SyncConstants.SpecProposerReward(state.totalIncrements, state.baseReward) * Sync.SetBits(blocks[b], seats) else 0
  {
  }

  lemma FilledGrew(env: Env, tr: seq<Step>, m: EpochMeta)
    requires Filled(env, tr, m)
    ensures var before, curr := MetaAt(Final(env, tr), env.epoch), DutiesAt(Final(env, tr), env.epoch);
            var perSync := SyncConstants.SpecProposerReward(before.state.totalIncrements, before.state.baseReward);
      m.sync.rewards.Keys == before.sync.rewards.Keys && RewardsGrew(before.sync.rewards, m.sync.rewards, perSync, SyncedUpTo(curr, curr.Keys))
  {
    hide Final, MetaAt, DutiesAt, SyncedUpTo, ParticipationGrew, SyncConstants.SyncReward, SyncConstants.PerSyncProposerReward, SyncConstants.SpecProposerReward;
    var state := MetaAt(Final(env, tr), env.epoch).state;
    SyncConstants.FusedDivisionMatchesSpec(state.totalIncrements, state.baseReward);
  }

  lemma BeforeSyncIsClear(env: Env, t: Inputs, b: int)
    requires Succeeds(t, env) && InWindow(env.epoch, b)
    ensures var st := Final(env, BeforeSync(t, env));
      && (forall u :: DutyAt(st, env.epoch, u).sync == NO_SYNC)
      && b in MetaAt(st, env.epoch).sync.rewards && MetaAt(st, env.epoch).sync.rewards[b] == 0
  {
    hide Run, BeforeSync, Succeeds, LaneOf;
    BeforeSyncHasNone(t, env);
    RunLeavesSync(Shared(map[], map[]), env, BeforeSync(t, env));
    var epoch, st := env.epoch, Final(env, BeforeSync(t, env));
    assert MetaAt(st, epoch).sync == InitInfo(epoch).meta.sync;
    assert b in Window(epoch);
    forall u
      ensures DutyAt(st, epoch, u).sync == NO_SYNC
    {
      assert DutyAt(map[], epoch, u).sync == NO_SYNC;
    }
  }

  lemma CheckedKeepsRewards(st: Storage, epoch: int, committee: seq<int>, blocks: seq<Sync.BlockBits>)
    ensures MetaAt(Sync.SyncChecked(st, epoch, committee, blocks), epoch).sync.rewards == MetaAt(st, epoch).sync.rewards
  {
    SeatsKeepMeta(st, epoch, committee, blocks);
    hide Sync.SyncSeats;
  }

  lemma {:induction false} SeatsKeepMeta(st: Storage, epoch: int, committee: seq<int>, blocks: seq<Sync.BlockBits>)
    ensures MetaAt(Sync.SyncSeats(st, epoch, committee, blocks), epoch) == MetaAt(st, epoch)
  {
    hide Sync.SeatPatch, Merge;
    if committee != [] {
      SeatsKeepMeta(st, epoch, committee[..|committee| - 1], blocks);
    }
  }
}
