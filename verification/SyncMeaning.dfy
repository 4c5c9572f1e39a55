/** What the sync part of a round amounts to in terms of the blocks of the epoch and of the committee alone: which blocks were
    to be synced, who signed how many of them, and what each member earns, misses and is penalised by. */
module SyncMeaning {
  import opened Constants
  import opened Options
  import opened Sums
  import opened Summary
  import opened SyncConstants
  import opened DutyMetadata
  import opened AttestationAccounting
  import opened Sync
  import Attestation
  import Interleaving
  import Round
  import RoundState
  import Steps
  import ValidatorState

  type Bitfields = map<int, seq<bool>>

  /** The slots of the epoch that hold a block. */
  function EpochSlots(epoch: int, blocks: Bitfields): set<int> {
    set b | b in blocks && b / SLOTS_PER_EPOCH == epoch
  }

  /** The blocks of the epoch in which the bit of a seat is set. */
  function Signed(epoch: int, blocks: Bitfields, seat: int): set<int> {
    set b | b in blocks && b / SLOTS_PER_EPOCH == epoch && 0 <= seat < |blocks[b]| && blocks[b][seat]
  }

  // ---- the list of blocks ----------------------------------------------------------------------

  lemma {:induction false} TimesListed(list: seq<BlockBits>, b: int)
    requires Distinct(list)
    ensures Times(Slots(list), b) == if BitsOf(list, b).Some? then 1 else 0
  {
    if list != [] {
      var init, last := list[..|list| - 1], list[|list| - 1];
      TimesListed(init, b);
      assert Slots(list) == Slots(init) + [last.block];
    }
  }

  /** After a check from an epoch with no blocks recorded, the recorded list holds every block of the epoch exactly once, and
      nothing else. */
  lemma BlocksToSync(st: Storage, epoch: int, committee: seq<int>, blocks: Bitfields, b: int)
    requires MetaAt(st, epoch).sync.blocksToSync == []
    ensures multiset(MetaAt(SyncChecked(st, epoch, committee, BlocksOf(epoch, blocks)), epoch).sync.blocksToSync)[b]
         == if b / SLOTS_PER_EPOCH == epoch && b in blocks then 1 else 0
  {
    var list := BlocksOf(epoch, blocks);
    EpochBlocksAre(blocks, epoch * SLOTS_PER_EPOCH, (epoch + 1) * SLOTS_PER_EPOCH, b);
    TimesListed(list, b);
    RecordedList(st, epoch, committee, list);
    hide SyncChecked, EpochBlocks, BitsOf, Distinct, Slots, MetaAt;
  }

  lemma RecordedList(st: Storage, epoch: int, committee: seq<int>, list: seq<BlockBits>)
    requires MetaAt(st, epoch).sync.blocksToSync == []
    ensures MetaAt(SyncChecked(st, epoch, committee, list), epoch).sync.blocksToSync == Slots(list)
  {
    Round.SeatsKeepMeta(st, epoch, committee, list);
    hide SyncSeats, Slots;
  }

  lemma CountOnce(list: seq<int>, all: set<int>)
    requires forall b :: multiset(list)[b] == if b in all then 1 else 0
    ensures |list| == |all|
  {
    forall b
      ensures multiset(list)[b] == multiset(all)[b]
    {
    }
    assert multiset(list) == multiset(all);
    assert |multiset(list)| == |list| && |multiset(all)| == |all|;
  }

  /** So its length is the number of blocks of the epoch. */
  lemma BlocksToSyncCount(st: Storage, epoch: int, committee: seq<int>, blocks: Bitfields)
    requires MetaAt(st, epoch).sync.blocksToSync == []
    ensures |MetaAt(SyncChecked(st, epoch, committee, BlocksOf(epoch, blocks)), epoch).sync.blocksToSync| == |EpochSlots(epoch, blocks)|
  {
    hide SyncChecked, BlocksOf, MetaAt;
    var list := MetaAt(SyncChecked(st, epoch, committee, BlocksOf(epoch, blocks)), epoch).sync.blocksToSync;
    forall b
      ensures multiset(list)[b] == if b in EpochSlots(epoch, blocks) then 1 else 0
    {
      BlocksToSync(st, epoch, committee, blocks, b);
    }
    CountOnce(list, EpochSlots(epoch, blocks));
  }

  // ---- who signed how much ---------------------------------------------------------------------

  ghost function SignedWithin(blocks: Bitfields, lo: int, hi: int, seat: int): set<int> {
    set b | b in blocks && lo <= b < hi && 0 <= seat < |blocks[b]| && blocks[b][seat]
  }

  lemma OneBlockMore(blocks: Bitfields, lo: int, hi: int)
    requires lo < hi
    ensures var init, all := EpochBlocks(blocks, lo, hi - 1), EpochBlocks(blocks, lo, hi);
      if hi - 1 in blocks then all == init + [BlockBits(hi - 1, blocks[hi - 1])] && all[..|init|] == init else all == init
  {
  }

  lemma {:induction false} SyncedIsSigned(blocks: Bitfields, lo: int, hi: int, seat: int)
    requires lo <= hi
    ensures |Synced(EpochBlocks(blocks, lo, hi), seat)| == |SignedWithin(blocks, lo, hi, seat)|
    decreases hi - lo
  {
    if lo == hi {
      assert SignedWithin(blocks, lo, hi, seat) == {};
    } else {
      SyncedIsSigned(blocks, lo, hi - 1, seat);
      OneBlockMore(blocks, lo, hi);
      var before := SignedWithin(blocks, lo, hi - 1, seat);
      if hi - 1 in blocks && Attestation.Bit(blocks[hi - 1], seat) {
        assert SignedWithin(blocks, lo, hi, seat) == before + {hi - 1};
      } else {
        assert SignedWithin(blocks, lo, hi, seat) == before;
      }
    }
  }

  lemma SyncedInEpoch(epoch: int, blocks: Bitfields, seat: int)
    ensures |Synced(BlocksOf(epoch, blocks), seat)| == |Signed(epoch, blocks, seat)|
  {
    SyncedIsSigned(blocks, epoch * SLOTS_PER_EPOCH, (epoch + 1) * SLOTS_PER_EPOCH, seat);
    assert SignedWithin(blocks, epoch * SLOTS_PER_EPOCH, (epoch + 1) * SLOTS_PER_EPOCH, seat) == Signed(epoch, blocks, seat);
  }

  /** How many bits a validator set, over all the seats it holds in the committee. */
  ghost function SignedBy(v: int, epoch: int, committee: seq<int>, blocks: Bitfields): nat {
    if committee == [] then 0
    else
      var last := |committee| - 1;
      SignedBy(v, epoch, committee[..last], blocks) + if committee[last] == v then |Signed(epoch, blocks, last)| else 0
  }

  lemma {:induction false} SeatsAreSigned(v: int, epoch: int, committee: seq<int>, blocks: Bitfields)
    ensures var seats := SeatsOf(v, committee, BlocksOf(epoch, blocks));
      SyncedLengths(seats) == SignedBy(v, epoch, committee, blocks) && |seats| == multiset(committee)[v]
  {
    if committee != [] {
      var init, last := committee[..|committee| - 1], |committee| - 1;
      assert committee == init + [committee[last]];
      SeatsAreSigned(v, epoch, init, blocks);
      SyncedInEpoch(epoch, blocks, last);
      SeatsSnoc(map[], epoch, init, committee[last], BlocksOf(epoch, blocks), v);
      LengthOfOneMore(SeatsOf(v, init, BlocksOf(epoch, blocks)), Synced(BlocksOf(epoch, blocks), last));
      hide BlocksOf, Synced, Signed, SeatsOf, SyncSeats, SyncSeat, SyncedLengths;
    }
  }

  lemma LengthOfOneMore(seats: seq<seq<int>>, seat: seq<int>)
    ensures SyncedLengths(seats + [seat]) == SyncedLengths(seats) + |seat|
  {
    assert (seats + [seat])[..|seats|] == seats;
  }

  ghost function BitsIn(blocks: Bitfields, n: nat): int -> int {
    b => if b in blocks then SetBits(blocks[b], n) else 0
  }

  /** All bits set in the blocks of the epoch. */
  ghost function AllBits(epoch: int, blocks: Bitfields, n: nat): int {
    SumSet(EpochSlots(epoch, blocks), BitsIn(blocks, n))
  }

  ghost function SlotsWithin(blocks: Bitfields, lo: int, hi: int): set<int> {
    set b | b in blocks && lo <= b < hi
  }

  lemma {:induction false} BitsBlockByBlock(blocks: Bitfields, lo: int, hi: int, n: nat)
    requires lo <= hi
    ensures SetBitsOfAll(EpochBlocks(blocks, lo, hi), n) == SumSet(SlotsWithin(blocks, lo, hi), BitsIn(blocks, n))
    decreases hi - lo
  {
    hide SetBits;
    if lo == hi {
      assert SlotsWithin(blocks, lo, hi) == {};
    } else {
      BitsBlockByBlock(blocks, lo, hi - 1, n);
      OneBlockMore(blocks, lo, hi);
      var before := SlotsWithin(blocks, lo, hi - 1);
      if hi - 1 in blocks {
        assert SlotsWithin(blocks, lo, hi) == before + {hi - 1};
        SumSetAdd(before, hi - 1, BitsIn(blocks, n));
      } else {
        assert SlotsWithin(blocks, lo, hi) == before;
      }
    }
  }

  lemma BitsOfEpoch(epoch: int, blocks: Bitfields, n: nat)
    ensures SetBitsOfAll(BlocksOf(epoch, blocks), n) == AllBits(epoch, blocks, n)
  {
    BitsBlockByBlock(blocks, epoch * SLOTS_PER_EPOCH, (epoch + 1) * SLOTS_PER_EPOCH, n);
    assert SlotsWithin(blocks, epoch * SLOTS_PER_EPOCH, (epoch + 1) * SLOTS_PER_EPOCH) == EpochSlots(epoch, blocks);
    hide SumSet, BitsIn, SetBitsOfAll, EpochBlocks;
  }

  // ---- from the check to the rewards -----------------------------------------------------------

  /** Neither the seats nor the list of blocks changed in between. */
  ghost predicate KeepsSeats(st: Storage, st': Storage, epoch: int) {
    && (forall v :: DutyAt(st', epoch, v).sync == DutyAt(st, epoch, v).sync)
    && MetaAt(st', epoch).sync.blocksToSync == MetaAt(st, epoch).sync.blocksToSync
  }

  /** The store after `SyncRewards.Calculate`. */
  ghost predicate Calculated(st: Storage, st': Storage, epoch: int) {
    var m, duties := MetaAt(st, epoch), DutiesAt(st, epoch);
    Rewarded(duties, DutiesAt(st', epoch), duties.Keys, |m.sync.blocksToSync|, m.sync.perBlockReward)
  }

  /** No sync field is set, and no block recorded. */
  ghost predicate NoSync(st: Storage, epoch: int) {
    (forall u :: DutyAt(st, epoch, u).sync == NO_SYNC) && MetaAt(st, epoch).sync.blocksToSync == []
  }

  lemma SameSeatsWorth(st: Storage, st': Storage, epoch: int, h: seq<int> -> int)
    requires KeepsSeats(st, st', epoch)
    ensures SeatsWorth(DutiesAt(st', epoch), h) == SeatsWorth(DutiesAt(st, epoch), h)
  {
    var duties, duties' := DutiesAt(st, epoch), DutiesAt(st', epoch);
    var all := duties.Keys + duties'.Keys;
    forall v
      ensures SeatWorth(duties', h)(v) == SeatWorth(duties, h)(v)
      ensures v !in duties ==> SeatWorth(duties, h)(v) == 0
      ensures v !in duties' ==> SeatWorth(duties', h)(v) == 0
    {
      assert DutyAt(st', epoch, v).sync == DutyAt(st, epoch, v).sync;
    }
    hide SumSet, SeatWorth;
    SumSetSupport(duties.Keys, all, SeatWorth(duties, h));
    SumSetSupport(duties'.Keys, all, SeatWorth(duties', h));
    SumSetCongruent(all, SeatWorth(duties, h), SeatWorth(duties', h));
  }

  lemma SeatsAfterCheck(st: Storage, mid: Storage, epoch: int, committee: seq<int>, blocks: Bitfields, h: seq<int> -> int)
    requires NoSync(st, epoch) && KeepsSeats(SyncChecked(st, epoch, committee, BlocksOf(epoch, blocks)), mid, epoch)
    ensures SeatsWorth(DutiesAt(mid, epoch), h) == CommitteeWorth(|committee|, BlocksOf(epoch, blocks), h)
    ensures |MetaAt(mid, epoch).sync.blocksToSync| == |EpochSlots(epoch, blocks)|
  {
    BlocksToSyncCount(st, epoch, committee, blocks);
    hide SyncChecked, SyncSeats, BlocksOf, SeatsWorth, CommitteeWorth, EpochSlots, DutyAt;
    SameSeatsWorth(SyncChecked(st, epoch, committee, BlocksOf(epoch, blocks)), mid, epoch, h);
    CheckedDuties(st, epoch, committee, BlocksOf(epoch, blocks));
    SeatsTotal(st, epoch, committee, BlocksOf(epoch, blocks), h);
  }

  /** From the store before the check to the store after the rewards, with other checks and the fill in between: summed over
      the members, earned is the per-block reward times all set bits, and both missed and penalty are the per-block reward times all
      bits that stayed unset in the blocks of the epoch. */
  lemma SyncTotals(st: Storage, mid: Storage, st': Storage, epoch: int, committee: seq<int>, blocks: Bitfields)
    requires NoSync(st, epoch) && KeepsSeats(SyncChecked(st, epoch, committee, BlocksOf(epoch, blocks)), mid, epoch)
    requires (forall v :: v in DutiesAt(mid, epoch) ==> DutiesAt(mid, epoch)[v].syncRewards == NO_REWARDS) && Calculated(mid, st', epoch)
    ensures var duties', perBlock, bits := DutiesAt(st', epoch), MetaAt(mid, epoch).sync.perBlockReward, AllBits(epoch, blocks, |committee|);
            var unset := |EpochSlots(epoch, blocks)| * |committee| - bits;
      && SumSet(duties'.Keys, EarnedBy(duties')) == perBlock * bits
      && SumSet(duties'.Keys, MissedOf(duties')) == perBlock * unset
      && SumSet(duties'.Keys, PenaltyOf(duties')) == perBlock * unset
  {
    var n, perBlock := |MetaAt(mid, epoch).sync.blocksToSync|, MetaAt(mid, epoch).sync.perBlockReward;
    hide *;
    SeatsAfterCheck(st, mid, epoch, committee, blocks, LengthOf());
    SeatsAfterCheck(st, mid, epoch, committee, blocks, OneSeat());
    CommitteeLengths(|committee|, BlocksOf(epoch, blocks));
    BitsOfEpoch(epoch, blocks, |committee|);
    CalculatedIs(mid, st', epoch);
    TotalsFromMembers(DutiesAt(mid, epoch), DutiesAt(st', epoch), n, perBlock);
    UnsignedIs(perBlock, n, |committee|, AllBits(epoch, blocks, |committee|));
  }

  lemma CalculatedIs(st: Storage, st': Storage, epoch: int)
    requires Calculated(st, st', epoch)
    ensures var m, duties := MetaAt(st, epoch), DutiesAt(st, epoch);
      Rewarded(duties, DutiesAt(st', epoch), duties.Keys, |m.sync.blocksToSync|, m.sync.perBlockReward)
  {
    hide Rewarded;
  }

  lemma UnsignedIs(perBlock: nat, nBlocks: nat, seats: int, synced: int)
    ensures Unsigned(perBlock, nBlocks, seats, synced) == perBlock * (nBlocks * seats - synced)
  {
  }

  /** What one validator gets: its share of the set and of the unset bits, for all its seats; nothing without a seat. */
  lemma MemberRewards(st: Storage, mid: Storage, st': Storage, epoch: int, committee: seq<int>, blocks: Bitfields, v: int)
    requires NoSync(st, epoch) && KeepsSeats(SyncChecked(st, epoch, committee, BlocksOf(epoch, blocks)), mid, epoch)
    requires Calculated(mid, st', epoch)
    ensures var perBlock, signed := MetaAt(mid, epoch).sync.perBlockReward, SignedBy(v, epoch, committee, blocks);
            var unset := |EpochSlots(epoch, blocks)| * multiset(committee)[v] - signed;
            var rewards := Rewards(Some(perBlock * signed), Some(perBlock * unset), Some(perBlock * unset));
      DutyAt(st', epoch, v) == if v in committee then DutyAt(mid, epoch, v).(syncRewards := rewards) else DutyAt(mid, epoch, v)
  {
    var list, n, perBlock := BlocksOf(epoch, blocks), |MetaAt(mid, epoch).sync.blocksToSync|, MetaAt(mid, epoch).sync.perBlockReward;
    hide *;
    SeatsAreSigned(v, epoch, committee, blocks);
    SeatsAfterCheck(st, mid, epoch, committee, blocks, OneSeat());
    RecordAfterCheck(st, mid, epoch, committee, list, v);
    RewardOfSeats(SeatsOf(v, committee, list), n, perBlock);
    CalculatedIs(mid, st', epoch);
    RewardOfRecord(DutiesAt(mid, epoch), DutiesAt(st', epoch), SeatsOf(v, committee, list), n, perBlock, v);
    DutyAtIs(mid, epoch, v);
    DutyAtIs(st', epoch, v);
  }

  lemma DutyAtIs(st: Storage, epoch: int, v: int)
    ensures DutyAt(st, epoch, v) == DutyIn(DutiesAt(st, epoch), v)
  {
  }

  /** The seats of a validator are still in its record. */
  lemma RecordAfterCheck(st: Storage, mid: Storage, epoch: int, committee: seq<int>, list: seq<BlockBits>, v: int)
    requires NoSync(st, epoch) && KeepsSeats(SyncChecked(st, epoch, committee, list), mid, epoch)
    ensures DutyIn(DutiesAt(mid, epoch), v).sync == SyncOf(SeatsOf(v, committee, list), |list|)
    ensures v in committee <==> SeatsOf(v, committee, list) != []
  {
    hide SyncChecked, SyncSeats, SeatsOf, SyncOf, DutiesAt;
    CheckedDuties(st, epoch, committee, list);
    SeatsMeaning(st, epoch, committee, list, v);
    assert DutyAt(mid, epoch, v).sync == DutyAt(SyncChecked(st, epoch, committee, list), epoch, v).sync;
  }

  lemma RewardOfRecord(duties: map<int, Duty>, duties': map<int, Duty>, seats: seq<seq<int>>, n: nat, perBlock: nat, v: int)
    requires Rewarded(duties, duties', duties.Keys, n, perBlock)
    requires exists any :: DutyIn(duties, v).sync == SyncOf(seats, any)
    ensures DutyIn(duties', v) == if seats != [] then DutyIn(duties, v).(syncRewards := RewardOf(seats, n, perBlock)) else DutyIn(duties, v)
  {
    hide RewardOf, SyncPercent;
  }

  lemma RewardOfSeats(seats: seq<seq<int>>, n: nat, perBlock: nat)
    ensures var unset := n * |seats| - SyncedLengths(seats);
      RewardOf(seats, n, perBlock) == Rewards(Some(perBlock * SyncedLengths(seats)), Some(perBlock * unset), Some(perBlock * unset))
  {
    var all, synced: int := n * |seats|, SyncedLengths(seats);
    Distribute(perBlock, all, -synced);
  }

  // ---- over a round ----------------------------------------------------------------------------

  /** No check of a round pays a sync reward. */
  ghost predicate NothingPaid(st: Storage) {
    forall e, v :: DutyAt(st, e, v).syncRewards == NO_REWARDS
  }

  lemma StepPaysNothing(sh: Steps.Shared, env: Steps.Env, s: Steps.Step)
    requires NothingPaid(sh.st)
    ensures NothingPaid(Steps.Apply(sh, env, s).st)
  {
    var st' := Steps.Apply(sh, env, s).st;
    hide Steps.ApplyPlain, Attestation.RunAggregate, Attestation.Resolve, DutyAt;
    if s.FoldOne? {
      var agg := Attestation.Resolve(s.att, sh.committees, env.canon, env.forks);
      if agg.Some? {
        forall e, v
          ensures DutyAt(st', e, v).syncRewards == NO_REWARDS
        {
          RunAggregateRecord(sh.st, env.epoch, agg.value, e, v);
        }
      }
    } else if Steps.IsPlain(s) {
      PlainPaysNothing(sh.st, env.epoch, s);
    }
  }

  lemma PlainPaysNothing(st: Storage, epoch: int, s: Steps.Step)
    requires NothingPaid(st) && Steps.IsPlain(s)
    ensures NothingPaid(Steps.ApplyPlain(st, epoch, s))
  {
    Steps.ApplyIsWrite(st, epoch, s);
    hide Steps.ApplyPlain;
    forall e', v
      ensures DutyAt(Steps.ApplyPlain(st, epoch, s), e', v).syncRewards == NO_REWARDS
    {
      if Steps.OnRecord(s) {
        var (e, u) := Steps.Place(s, epoch);
        assert Steps.Act(s, epoch, DutyAt(st, e, u)).syncRewards == DutyAt(st, e, u).syncRewards by {
          hide MergeSync, SeatPatch, DutyAt;
        }
        DutyAfterWrite(st, e, u, Steps.Act(s, epoch, DutyAt(st, e, u)), e', v);
        hide Steps.Act, WithDuty, DutyAt;
      } else {
        DutyAfterMeta(st, epoch, Steps.ActMeta(s, MetaAt(st, epoch)), e', v);
        hide WithMeta, DutyAt, Steps.ActMeta;
      }
    }
  }

  lemma {:induction false} RunPaysNothing(sh: Steps.Shared, env: Steps.Env, tr: seq<Steps.Step>)
    requires NothingPaid(sh.st)
    ensures NothingPaid(Interleaving.Run(sh, env, tr).st)
  {
    hide Steps.Apply, NothingPaid;
    if tr != [] {
      RunPaysNothing(sh, env, tr[..|tr| - 1]);
      StepPaysNothing(Interleaving.Run(sh, env, tr[..|tr| - 1]), env, tr[|tr| - 1]);
    }
  }

  lemma NoSyncBefore(env: Steps.Env, t: Interleaving.Inputs)
    requires Interleaving.Succeeds(t, env)
    ensures NoSync(Round.Final(env, Round.BeforeSync(t, env)), env.epoch)
  {
    hide Interleaving.Run, Round.BeforeSync, Interleaving.Succeeds, Steps.LaneOf;
    Round.BeforeSyncHasNone(t, env);
    Round.RunLeavesSync(Steps.Shared(map[], map[]), env, Round.BeforeSync(t, env));
    var epoch, st := env.epoch, Round.Final(env, Round.BeforeSync(t, env));
    assert MetaAt(st, epoch).sync == InitInfo(epoch).meta.sync;
    forall u
      ensures DutyAt(st, epoch, u).sync == NO_SYNC
    {
      assert DutyAt(map[], epoch, u).sync == NO_SYNC;
    }
  }

  /** What happens to the store between the checks and the sync rewards: the fill, and changes outside the sync fields. */
  ghost predicate Prepared(env: Steps.Env, tr: seq<Steps.Step>, m: EpochMeta, mid: Storage) {
    && Round.Filled(env, tr, m) && MetaAt(mid, env.epoch).sync == m.sync
    && forall v :: DutyAt(mid, env.epoch, v).sync == DutyAt(Round.Final(env, tr), env.epoch, v).sync
                   && DutyAt(mid, env.epoch, v).syncRewards == DutyAt(Round.Final(env, tr), env.epoch, v).syncRewards
  }

  lemma PreparedIs(env: Steps.Env, tr: seq<Steps.Step>, m: EpochMeta, mid: Storage)
    requires Prepared(env, tr, m, mid)
    ensures Round.Filled(env, tr, m) && MetaAt(mid, env.epoch).sync == m.sync
  {
    hide Round.Filled, MetaAt, DutyAt;
  }

  lemma PreparedKeepsSeats(env: Steps.Env, t: Interleaving.Inputs, tr: seq<Steps.Step>, m: EpochMeta, mid: Storage)
    requires Interleaving.Succeeds(t, env) && Interleaving.Interleaves(tr, t, env)
    ensures var before := Round.Final(env, Round.BeforeSync(t, env));
      Prepared(env, tr, m, mid) ==> KeepsSeats(SyncChecked(before, env.epoch, t.committee, BlocksOf(env.epoch, t.syncBits)), mid, env.epoch)
  {
    hide Round.Final, Interleaving.Succeeds, Interleaving.Interleaves, SyncChecked, BlocksOf, Round.BeforeSync, DutyAt, MetaAt;
    if Prepared(env, tr, m, mid) {
      Round.SyncLast(env, t, tr);
      KeptInFill(env, tr, m);
    }
  }

  lemma KeptInFill(env: Steps.Env, tr: seq<Steps.Step>, m: EpochMeta)
    requires Round.Filled(env, tr, m)
    ensures m.sync.blocksToSync == MetaAt(Round.Final(env, tr), env.epoch).sync.blocksToSync
    ensures var state := MetaAt(Round.Final(env, tr), env.epoch).state;
      m.sync.perBlockReward == SpecParticipantReward(state.totalIncrements, state.baseReward)
  {
    hide Round.Final, MetaAt, DutiesAt, ParticipationGrew, RewardsGrew, SyncReward, SpecParticipantReward, PerSyncProposerReward;
    var state := MetaAt(Round.Final(env, tr), env.epoch).state;
    FusedDivisionMatchesSpec(state.totalIncrements, state.baseReward);
  }

  lemma NothingPaidYet(env: Steps.Env, tr: seq<Steps.Step>, m: EpochMeta, mid: Storage)
    requires Prepared(env, tr, m, mid)
    ensures forall v :: v in DutiesAt(mid, env.epoch) ==> DutiesAt(mid, env.epoch)[v].syncRewards == NO_REWARDS
  {
    hide Interleaving.Run, Round.Filled;
    RunPaysNothing(Steps.Shared(map[], map[]), env, tr);
    forall v | v in DutiesAt(mid, env.epoch)
      ensures DutiesAt(mid, env.epoch)[v].syncRewards == NO_REWARDS
    {
      assert DutyAt(mid, env.epoch, v).syncRewards == DutyAt(Round.Final(env, tr), env.epoch, v).syncRewards;
    }
  }

  /** The per-block reward of a round, from the validators of the state. */
  ghost function ParticipantReward(t: Interleaving.Inputs, env: Steps.Env): nat
    requires Interleaving.Succeeds(t, env)
  {
    RoundState.SomeActive(t, env);
    var increments := ValidatorState.ActiveIncrements(t.validators, env.epoch);
    SpecParticipantReward(increments, ValidatorState.BaseReward(increments))
  }

  lemma PerBlockReward(env: Steps.Env, t: Interleaving.Inputs, tr: seq<Steps.Step>, m: EpochMeta)
    requires Interleaving.Succeeds(t, env) && Interleaving.Interleaves(tr, t, env)
    ensures Round.Filled(env, tr, m) ==> m.sync.perBlockReward == ParticipantReward(t, env)
  {
    if Round.Filled(env, tr, m) {
      KeptInFill(env, tr, m);
    }
    RoundState.SomeActive(t, env);
    RoundState.RoundState(env, t, tr, 0);
    hide Round.Final, Round.Filled, Interleaving.Interleaves, Interleaving.Succeeds, SpecParticipantReward, ValidatorState.BaseReward,
      ValidatorState.ActiveIncrements, ValidatorState.ActiveIn, MetaAt, DutyAt;
  }

  /** Sync rewards over a round, however the checks were interleaved: earned, missed and penalty summed over the members are the
      specification's participant reward times the set and the unset bits of the blocks of the epoch. */
  lemma RoundSyncTotals(env: Steps.Env, t: Interleaving.Inputs, tr: seq<Steps.Step>, m: EpochMeta, mid: Storage, st': Storage)
    requires Interleaving.Succeeds(t, env) && Interleaving.Interleaves(tr, t, env)
    ensures Prepared(env, tr, m, mid) && Calculated(mid, st', env.epoch) ==>
              var duties', bits := DutiesAt(st', env.epoch), AllBits(env.epoch, t.syncBits, |t.committee|);
              var unset := |EpochSlots(env.epoch, t.syncBits)| * |t.committee| - bits;
              && SumSet(duties'.Keys, EarnedBy(duties')) == ParticipantReward(t, env) * bits
              && SumSet(duties'.Keys, MissedOf(duties')) == ParticipantReward(t, env) * unset
              && SumSet(duties'.Keys, PenaltyOf(duties')) == ParticipantReward(t, env) * unset
  {
    hide *;
    if Prepared(env, tr, m, mid) && Calculated(mid, st', env.epoch) {
      PreparedIs(env, tr, m, mid);
      NoSyncBefore(env, t);
      PreparedKeepsSeats(env, t, tr, m, mid);
      NothingPaidYet(env, tr, m, mid);
      PerBlockReward(env, t, tr, m);
      SyncTotals(Round.Final(env, Round.BeforeSync(t, env)), mid, st', env.epoch, t.committee, t.syncBits);
    }
  }

  /** The same for one validator. */
  lemma RoundMemberRewards(env: Steps.Env, t: Interleaving.Inputs, tr: seq<Steps.Step>, m: EpochMeta, mid: Storage, st': Storage, v: int)
    requires Interleaving.Succeeds(t, env) && Interleaving.Interleaves(tr, t, env)
    ensures Prepared(env, tr, m, mid) && Calculated(mid, st', env.epoch) ==>
              var perBlock, signed := ParticipantReward(t, env), SignedBy(v, env.epoch, t.committee, t.syncBits);
              var unset := |EpochSlots(env.epoch, t.syncBits)| * multiset(t.committee)[v] - signed;
              DutyAt(st', env.epoch, v).syncRewards
              == if v in t.committee then Rewards(Some(perBlock * signed), Some(perBlock * unset), Some(perBlock * unset)) else NO_REWARDS
  {
    hide *;
    if Prepared(env, tr, m, mid) && Calculated(mid, st', env.epoch) {
      PreparedIs(env, tr, m, mid);
      NoSyncBefore(env, t);
      PreparedKeepsSeats(env, t, tr, m, mid);
      NothingPaidYet(env, tr, m, mid);
      PerBlockReward(env, t, tr, m);
      MemberRewards(Round.Final(env, Round.BeforeSync(t, env)), mid, st', env.epoch, t.committee, t.syncBits, v);
      PaidOrNot(mid, env.epoch, v);
    }
  }

  lemma PaidOrNot(st: Storage, epoch: int, v: int)
    requires forall v :: v in DutiesAt(st, epoch) ==> DutiesAt(st, epoch)[v].syncRewards == NO_REWARDS
    ensures DutyAt(st, epoch, v).syncRewards == NO_REWARDS
  {
  }
}
