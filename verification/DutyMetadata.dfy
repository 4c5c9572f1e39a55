/** What is filled into the epoch's metadata once all duty checks are done: participation totals, the sync
    part and the attestation part of the block rewards. */
module DutyMetadata {
  import opened Constants
  import opened Options
  import opened Sums
  import opened Summary
  import opened AttestationConstants
  import opened Attestation
  import opened AttestationAccounting
  import ProposalRewards
  import SyncConstants

  function IncrementsOf(balance: nat): nat {
    balance / GWEI_PER_INCREMENT
  }

  function Increments(duties: map<int, Duty>, v: int): nat {
    IncrementsOf(DutyIn(duties, v).state.effectiveBalance.GetOr(0))
  }

  predicate BalanceKnown(duties: map<int, Duty>, v: int) {
    DutyIn(duties, v).state.effectiveBalance.Some?
  }

  function BaseRewardOf(duties: map<int, Duty>, perIncrement: nat, v: int): nat {
    Increments(duties, v) * perIncrement
  }

  function BaseReward(duties: map<int, Duty>, perIncrement: nat): int -> nat {
    v => BaseRewardOf(duties, perIncrement, v)
  }

  // ---- participation ---------------------------------------------------------------------------

  /** A validator takes part with a flag when it is not slashed and its vote of the previous epoch earned it. */
  predicate Participates(curr: map<int, Duty>, prev: map<int, Duty>, v: int, f: Flag) {
    && !Truthy(DutyIn(curr, v).state.slashed)
    && Truthy(DutyIn(prev, v).att.happened)
    && Truthy(Known(DutyIn(prev, v).att, f))
  }

  function Taking(curr: map<int, Duty>, prev: map<int, Duty>, f: Flag): int -> int {
    v => if Participates(curr, prev, v, f) then Increments(curr, v) else 0
  }

  ghost function ParticipationOf(curr: map<int, Duty>, prev: map<int, Duty>, f: Flag): int {
    SumSet(curr.Keys, Taking(curr, prev, f))
  }

  /** Head participation never exceeds source or target participation. */
  lemma HeadParticipationIsLeast(st: Storage, epoch: int)
    requires forall v: int {:trigger Has(st, epoch - 1, v, HeadFlag)} ::
               Has(st, epoch - 1, v, HeadFlag) ==> Has(st, epoch - 1, v, SourceFlag) && Has(st, epoch - 1, v, TargetFlag)
    ensures var curr, prev := DutiesAt(st, epoch), DutiesAt(st, epoch - 1);
      && ParticipationOf(curr, prev, HeadFlag) <= ParticipationOf(curr, prev, SourceFlag)
      && ParticipationOf(curr, prev, HeadFlag) <= ParticipationOf(curr, prev, TargetFlag)
  {
    hide Increments, SumSet;
    var curr, prev := DutiesAt(st, epoch), DutiesAt(st, epoch - 1);
    forall v | v in curr.Keys
      ensures Taking(curr, prev, HeadFlag)(v) <= Taking(curr, prev, SourceFlag)(v)
      ensures Taking(curr, prev, HeadFlag)(v) <= Taking(curr, prev, TargetFlag)(v)
    {
      assert Has(st, epoch - 1, v, HeadFlag) <==> Truthy(Known(DutyIn(prev, v).att, HeadFlag));
    }
    SumSetMono(curr.Keys, Taking(curr, prev, HeadFlag), Taking(curr, prev, SourceFlag));
    SumSetMono(curr.Keys, Taking(curr, prev, HeadFlag), Taking(curr, prev, TargetFlag));
  }

  // ---- sync part -------------------------------------------------------------------------------

  /** In how many of its seats a validator synced a block. */
  ghost function SeatCount(block: int): seq<int> -> int {
    (seat: seq<int>) => Times(seat, block)
  }

  /** Any measure of a seat, summed over the seats of a validator. */
  ghost function SeatWorth(duties: map<int, Duty>, h: seq<int> -> int): int -> int {
    v => var d := DutyIn(duties, v).sync;
         if Truthy(d.isSync) && d.seats.Some? then SumSeq(d.seats.value, h) else 0
  }

  ghost function SyncedTimes(duties: map<int, Duty>, block: int): int -> int {
    SeatWorth(duties, SeatCount(block))
  }

  predicate SeatsIn(seats: seq<seq<int>>, rewards: map<int, nat>) {
    forall k :: 0 <= k < |seats| ==> forall b :: b in seats[k] ==> b in rewards
  }

  predicate SeatsKnown(d: SyncDuty, rewards: map<int, nat>) {
    Truthy(d.isSync) ==> d.seats.Some? && SeatsIn(d.seats.value, rewards)
  }

  /** What one validator needs for the fill not to throw. */
  predicate Fillable(duties: map<int, Duty>, rewards: map<int, nat>, v: int) {
    BalanceKnown(duties, v) && SeatsKnown(DutyIn(duties, v).sync, rewards)
  }

  predicate AllFillable(m: EpochMeta, duties: map<int, Duty>) {
    forall v :: v in duties ==> Fillable(duties, m.sync.rewards, v)
  }

  ghost predicate RewardsGrew(rewards: map<int, nat>, rewards': map<int, nat>, perSync: nat, times: int -> int) {
    rewards'.Keys == rewards.Keys && forall b :: b in rewards ==> rewards'[b] == rewards[b] + perSync * times(b)
  }

  ghost function SyncedUpTo(duties: map<int, Duty>, done: set<int>): int -> int {
    b => SumSet(done, SyncedTimes(duties, b))
  }

  ghost function SeatsUpTo(seats: seq<seq<int>>): int -> int {
    b => SumSeq(seats, SeatCount(b))
  }

  ghost function BlocksUpTo(seat: seq<int>): int -> int {
    b => Times(seat, b)
  }

  /** Participation after the validators `done` have been counted. */
  ghost predicate ParticipationGrew(p: Participation, p': Participation, curr: map<int, Duty>, prev: map<int, Duty>, done: set<int>) {
    && p'.source == p.source + SumSet(done, Taking(curr, prev, SourceFlag))
    && p'.target == p.target + SumSet(done, Taking(curr, prev, TargetFlag))
    && p'.head == p.head + SumSet(done, Taking(curr, prev, HeadFlag))
  }

  /** The metadata after `fillAttestationAndSyncMetadata`. */
  ghost predicate AttSyncFilled(m: EpochMeta, m': EpochMeta, curr: map<int, Duty>, prev: map<int, Duty>) {
    var perBlock := SyncConstants.SyncReward(m.state.totalIncrements, m.state.baseReward);
    && m' == m.(att := m.att.(participation := m'.att.participation),
                sync := m.sync.(perBlockReward := perBlock, rewards := m'.sync.rewards))
    && ParticipationGrew(m.att.participation, m'.att.participation, curr, prev, curr.Keys)
    && RewardsGrew(m.sync.rewards, m'.sync.rewards, SyncConstants.PerSyncProposerReward(perBlock), SyncedUpTo(curr, curr.Keys))
  }

  // ---- attestation part ------------------------------------------------------------------------

  predicate CreditKnown(duties: map<int, Duty>, c: Credit) {
    && (forall v :: v in c.source ==> BalanceKnown(duties, v))
    && (forall v :: v in c.target ==> BalanceKnown(duties, v))
    && (forall v :: v in c.head ==> BalanceKnown(duties, v))
  }

  /** What one block needs for the fill not to throw. */
  predicate Payable(duties: map<int, Duty>, rewards: map<int, nat>, block: int, cs: seq<Credit>) {
    (cs != [] ==> block in rewards) && forall i :: 0 <= i < |cs| ==> CreditKnown(duties, cs[i])
  }

  predicate AllPayable(m: EpochMeta, duties: map<int, Duty>) {
    forall b :: b in m.att.attestations ==> Payable(duties, m.att.rewards, b, m.att.attestations[b])
  }

  ghost function ShareOf(duties: map<int, Duty>, perIncrement: nat): Credit -> int {
    ProposalRewards.Share(BaseReward(duties, perIncrement))
  }

  /** The block rewards once the blocks outside `todo` have been paid for. */
  ghost predicate Paid(m: EpochMeta, rewards: map<int, nat>, duties: map<int, Duty>, todo: set<int>) {
    && rewards.Keys == m.att.rewards.Keys
    && forall b :: b in rewards ==>
         rewards[b] == m.att.rewards[b]
                       + if b in m.att.attestations && b !in todo then SumSeq(m.att.attestations[b], ShareOf(duties, m.state.baseReward)) else 0
  }

  /** The metadata after `fillProposalRewardsMetadata`. */
  ghost predicate ProposalFilled(m: EpochMeta, m': EpochMeta, duties: map<int, Duty>) {
    m' == m.(att := m.att.(rewards := m'.att.rewards)) && Paid(m, m'.att.rewards, duties, {})
  }

  // ---- the service -----------------------------------------------------------------------------

  class DutyService {
    const summary: SummaryService

    constructor (summary: SummaryService)
      ensures this.summary == summary
    {
      this.summary := summary;
    }

    /** Sums up one of the three lists of an attestation. */
    method ListReward(epoch: int, list: seq<int>, weight: nat, baseReward: nat) returns (ok: bool, rewards: nat)
      requires epoch in summary.storage
      modifies summary
      ensures summary.storage == old(summary.storage)
      ensures ok <==> forall v :: v in list ==> BalanceKnown(summary.storage[epoch].summary, v)
      ensures ok ==> rewards == SumSeq(list, ProposalRewards.Worth(BaseReward(summary.storage[epoch].summary, baseReward), weight))
    {
      ok, rewards := true, 0;
      ghost var duties := summary.storage[epoch].summary;
      ghost var worth := ProposalRewards.Worth(BaseReward(duties, baseReward), weight);
      for i := 0 to |list|
        invariant summary.storage == old(summary.storage)
        invariant forall k :: 0 <= k < i ==> BalanceKnown(duties, list[k])
        invariant rewards == SumSeq(list[..i], worth)
      {
        assert list[..i + 1][..i] == list[..i];
        var v := list[i];
        var d := summary.Get(epoch, v);
        assert summary.storage == old(summary.storage);
        if d.None? || d.value.state.effectiveBalance.None? {
          assert v in list && !BalanceKnown(duties, v);
          ok := false;
          return;
        }
        var incBaseReward := IncrementsOf(d.value.state.effectiveBalance.value) * baseReward;
        assert worth(v) == incBaseReward * weight;
        rewards := rewards + incBaseReward * weight;
      }
      assert list[..|list|] == list;
    }

    method AttestationReward(epoch: int, c: Credit, baseReward: nat) returns (ok: bool, rewards: nat)
      requires epoch in summary.storage
      modifies summary
      ensures summary.storage == old(summary.storage)
      ensures ok <==> CreditKnown(summary.storage[epoch].summary, c)
      ensures ok ==> rewards == ProposalRewards.Numerator(BaseReward(summary.storage[epoch].summary, baseReward))(c)
    {
      hide BalanceKnown, BaseReward, SumSeq;
      var source, target, head;
      rewards := 0;
      ok, source := ListReward(epoch, c.source, TIMELY_SOURCE_WEIGHT, baseReward);
      if !ok {
        return;
      }
      ok, target := ListReward(epoch, c.target, TIMELY_TARGET_WEIGHT, baseReward);
      if !ok {
        return;
      }
      ok, head := ListReward(epoch, c.head, TIMELY_HEAD_WEIGHT, baseReward);
      rewards := source + target + head;
    }

    /** All attestations of one block, each rounded down on its own. */
    method BlockReward(epoch: int, cs: seq<Credit>, baseReward: nat) returns (ok: bool, rewards: nat)
      requires epoch in summary.storage
      modifies summary
      ensures summary.storage == old(summary.storage)
      ensures ok <==> forall i :: 0 <= i < |cs| ==> CreditKnown(summary.storage[epoch].summary, cs[i])
      ensures ok ==> rewards == SumSeq(cs, ShareOf(summary.storage[epoch].summary, baseReward))
    {
      hide CreditKnown, BaseReward;
      ok, rewards := true, 0;
      ghost var duties := summary.storage[epoch].summary;
      for i := 0 to |cs|
        invariant summary.storage == old(summary.storage)
        invariant forall k :: 0 <= k < i ==> CreditKnown(duties, cs[k])
        invariant rewards == SumSeq(cs[..i], ShareOf(duties, baseReward))
      {
        hide SumSeq, ShareOf;
        SumSeqTake(cs, i, ShareOf(duties, baseReward));
        ShareIs(duties, baseReward, cs[i]);
        var r;
        ok, r := AttestationReward(epoch, cs[i], baseReward);
        if !ok {
          return;
        }
        rewards := rewards + ProposalRewards.ProposerAttPartReward(r);
      }
      assert cs[..|cs|] == cs;
    }

    /** Adds the proposer's part for every synced block of every seat. */
    method AddSeats(rewards: map<int, nat>, seats: seq<seq<int>>, perSync: nat) returns (ok: bool, rewards': map<int, nat>)
      ensures ok <==> SeatsIn(seats, rewards)
      ensures ok ==> RewardsGrew(rewards, rewards', perSync, SeatsUpTo(seats))
    {
      ok, rewards' := true, rewards;
      for k := 0 to |seats|
        invariant SeatsIn(seats[..k], rewards)
        invariant RewardsGrew(rewards, rewards', perSync, SeatsUpTo(seats[..k]))
      {
        assert seats[..k + 1][..k] == seats[..k];
        ghost var before := rewards';
        ok, rewards' := AddBlocks(rewards', seats[k], perSync);
        if !ok {
          assert !SeatsIn(seats, rewards);
          return;
        }
        SeatAdds(rewards, before, rewards', perSync, seats, k);
      }
      assert seats[..|seats|] == seats;
    }

    method AddBlocks(rewards: map<int, nat>, seat: seq<int>, perSync: nat) returns (ok: bool, rewards': map<int, nat>)
      ensures ok <==> forall b :: b in seat ==> b in rewards
      ensures ok ==> RewardsGrew(rewards, rewards', perSync, BlocksUpTo(seat))
    {
      ok, rewards' := true, rewards;
      for i := 0 to |seat|
        invariant forall b :: b in seat[..i] ==> b in rewards
        invariant RewardsGrew(rewards, rewards', perSync, BlocksUpTo(seat[..i]))
      {
        var block := seat[i];
        if block !in rewards' {
          assert block in seat;
          ok := false;
          return;
        }
        BlockAdds(rewards, rewards', perSync, seat, i);
        rewards' := rewards'[block := rewards'[block] + perSync];
      }
      assert seat[..|seat|] == seat;
    }

    /** Adds one validator's vote of the previous epoch to the participation totals. */
    method AddParticipation(p: Participation, epoch: int, v: int, d: Duty, increments: nat) returns (p': Participation)
      requires epoch in summary.storage && d == DutyAt(summary.storage, epoch, v)
      requires increments == Increments(DutiesAt(summary.storage, epoch), v)
      modifies summary
      ensures summary.storage == Touch(old(summary.storage), epoch - 1)
      ensures var curr, prev := DutiesAt(old(summary.storage), epoch), DutiesAt(old(summary.storage), epoch - 1);
        p' == Participation(p.source + Taking(curr, prev, SourceFlag)(v), p.target + Taking(curr, prev, TargetFlag)(v),
                            p.head + Taking(curr, prev, HeadFlag)(v))
    {
      hide Increments;
      p' := p;
      var attested := summary.Get(epoch - 1, v);
      if !Truthy(d.state.slashed) && attested.Some? && Truthy(attested.value.att.happened) {
        if Truthy(attested.value.att.source) {
          p' := p'.(source := p'.source + increments);
        }
        if Truthy(attested.value.att.target) {
          p' := p'.(target := p'.target + increments);
        }
        if Truthy(attested.value.att.head) {
          p' := p'.(head := p'.head + increments);
        }
      }
    }

    /** The body of the loop over validators. */
    method FillOne(epoch: int, v: int, p: Participation, rewards: map<int, nat>, perSync: nat)
      returns (ok: bool, p': Participation, rewards': map<int, nat>)
      requires epoch in summary.storage && v in summary.storage[epoch].summary
      modifies summary
      ensures ok <==> Fillable(DutiesAt(old(summary.storage), epoch), rewards, v)
      ensures ok ==> summary.storage == Touch(old(summary.storage), epoch - 1)
      ensures ok ==> var curr, prev := DutiesAt(old(summary.storage), epoch), DutiesAt(old(summary.storage), epoch - 1);
        && p' == Participation(p.source + Taking(curr, prev, SourceFlag)(v), p.target + Taking(curr, prev, TargetFlag)(v),
                               p.head + Taking(curr, prev, HeadFlag)(v))
        && RewardsGrew(rewards, rewards', perSync, SyncedBy(curr, v))
    {
      hide Taking, RewardsGrew;
      ok, p', rewards' := true, p, rewards;
      var d := summary.storage[epoch].summary[v];
      if d.state.effectiveBalance.None? {
        ok := false;
        return;
      }
      p' := AddParticipation(p, epoch, v, d, IncrementsOf(d.state.effectiveBalance.value));
      if Truthy(d.sync.isSync) {
        if d.sync.seats.None? {
          ok := false;
          return;
        }
        ok, rewards' := AddSeats(rewards, d.sync.seats.value, perSync);
      }
      SyncedByOne(DutiesAt(old(summary.storage), epoch), v, rewards, rewards', perSync);
    }

    /** One turn of that loop, with the progress made so far. */
    method FillNext(epoch: int, v: int, meta: EpochMeta, p: Participation, rewards: map<int, nat>, perSync: nat,
                    ghost st: Storage, ghost done: set<int>)
      returns (ok: bool, p': Participation, rewards': map<int, nat>)
      requires epoch in summary.storage && SameReads(st, summary.storage) && v in DutiesAt(st, epoch) && v !in done
      requires Progress(meta, DutiesAt(st, epoch), DutiesAt(st, epoch - 1), perSync, done, p, rewards)
      modifies summary
      ensures !ok ==> !AllFillable(meta, DutiesAt(st, epoch))
      ensures ok ==> && epoch in summary.storage && SameReads(st, summary.storage)
                     && Progress(meta, DutiesAt(st, epoch), DutiesAt(st, epoch - 1), perSync, done + {v}, p', rewards')
    {
      hide Progress, Taking, Fillable, RewardsGrew, SyncedBy, AllFillable;
      ghost var before := summary.storage;
      assert InfoAt(before, epoch) == InfoAt(st, epoch) && InfoAt(before, epoch - 1) == InfoAt(st, epoch - 1);
      ghost var curr, prev := DutiesAt(st, epoch), DutiesAt(st, epoch - 1);
      ok, p', rewards' := FillOne(epoch, v, p, rewards, perSync);
      if ok {
        SameReadsTouch(st, before, epoch - 1);
        OneMoreDone(meta, curr, prev, perSync, done, p, rewards, p', rewards', v);
      } else {
        CannotFill(meta, curr, prev, perSync, done, p, rewards, v);
      }
    }

    /** The loop over validators, in whatever order the Map yields them. */
    method FillAll(epoch: int, meta: EpochMeta, perSync: nat) returns (ok: bool, p: Participation, rewards: map<int, nat>)
      requires epoch in summary.storage
      modifies summary
      ensures ok <==> AllFillable(meta, DutiesAt(old(summary.storage), epoch))
      ensures ok ==> var curr, prev := DutiesAt(old(summary.storage), epoch), DutiesAt(old(summary.storage), epoch - 1);
        && SameReads(old(summary.storage), summary.storage)
        && ParticipationGrew(meta.att.participation, p, curr, prev, curr.Keys)
        && RewardsGrew(meta.sync.rewards, rewards, perSync, SyncedUpTo(curr, curr.Keys))
    {
      ghost var st := summary.storage;
      var duties := summary.storage[epoch].summary;
      ghost var prev := DutiesAt(st, epoch - 1);
      ok, p, rewards := true, meta.att.participation, meta.sync.rewards;
      var todo := duties.Keys;
      ghost var done: set<int> := {};
      assert duties == DutiesAt(st, epoch);
      NothingDone(meta, duties, prev, perSync);
      hide Progress, Taking, Fillable, RewardsGrew, ParticipationGrew, SyncedBy, SyncedUpTo, AllFillable, DutiesAt, InfoAt;
      while todo != {}
        invariant ok && done + todo == duties.Keys && done !! todo
        invariant epoch in summary.storage && SameReads(st, summary.storage)
        invariant Progress(meta, duties, prev, perSync, done, p, rewards)
      {
        var v := NextKey(todo);
        ok, p, rewards := FillNext(epoch, v, meta, p, rewards, perSync, st, done);
        if !ok {
          return;
        }
        todo, done := todo - {v}, done + {v};
      }
      assert done == duties.Keys;
      AllDone(meta, duties, prev, perSync, p, rewards);
    }

    method FillAttestationAndSyncMetadata(epoch: int) returns (ok: bool)
      modifies summary
      ensures ok <==> AllFillable(MetaAt(old(summary.storage), epoch), DutiesAt(old(summary.storage), epoch))
      ensures ok ==>
        && (forall e :: DutiesAt(summary.storage, e) == DutiesAt(old(summary.storage), e))
        && (forall e :: e != epoch ==> MetaAt(summary.storage, e) == MetaAt(old(summary.storage), e))
        && AttSyncFilled(MetaAt(old(summary.storage), epoch), MetaAt(summary.storage, epoch),
                         DutiesAt(old(summary.storage), epoch), DutiesAt(old(summary.storage), epoch - 1))
    {
      ghost var st := summary.storage;
      hide RewardsGrew, ParticipationGrew, SyncedUpTo, AllFillable, SyncConstants.SyncReward, SyncConstants.PerSyncProposerReward;
      var meta := summary.GetMeta(epoch);
      SameReadsTouch(st, st, epoch);
      assert InfoAt(summary.storage, epoch - 1) == InfoAt(st, epoch - 1);
      var perBlock := SyncConstants.SyncReward(meta.state.totalIncrements, meta.state.baseReward);
      var p, rewards;
      ok, p, rewards := FillAll(epoch, meta, SyncConstants.PerSyncProposerReward(perBlock));
      if ok {
        summary.UpdateMeta(epoch, meta.(att := meta.att.(participation := p), sync := meta.sync.(perBlockReward := perBlock, rewards := rewards)));
      }
    }

    method FillProposalRewardsMetadata(epoch: int) returns (ok: bool)
      modifies summary
      ensures ok <==> AllPayable(MetaAt(old(summary.storage), epoch), DutiesAt(old(summary.storage), epoch))
      ensures ok ==>
        && summary.storage == WithMeta(old(summary.storage), epoch, MetaAt(summary.storage, epoch))
        && ProposalFilled(MetaAt(old(summary.storage), epoch), MetaAt(summary.storage, epoch), DutiesAt(old(summary.storage), epoch))
    {
      var meta := summary.GetMeta(epoch);
      ghost var st, duties := summary.storage, summary.storage[epoch].summary;
      assert meta == MetaAt(old(summary.storage), epoch) && duties == DutiesAt(old(summary.storage), epoch);
      var lists, rewards := meta.att.attestations, meta.att.rewards;
      var todo := lists.Keys;
      ok := true;
      hide ShareOf, CreditKnown, SumSeq;
      while todo != {}
        invariant ok && todo <= lists.Keys
        invariant summary.storage == st
        invariant forall b :: b in lists && b !in todo ==> Payable(duties, meta.att.rewards, b, lists[b])
        invariant Paid(meta, rewards, duties, todo)
      {
        var b := NextKey(todo);
        var cs := lists[b];
        if cs != [] {
          var r;
          ok, r := BlockReward(epoch, cs, meta.state.baseReward);
          if !ok || b !in rewards {
            assert !Payable(duties, meta.att.rewards, b, lists[b]);
            assert !AllPayable(meta, duties);
            ok := false;
            return;
          }
          rewards := rewards[b := rewards[b] + r];
        } else {
          EmptyShares(duties, meta.state.baseReward);
        }
        todo := todo - {b};
      }
      summary.UpdateMeta(epoch, meta.(att := meta.att.(rewards := rewards)));
      assert summary.storage == WithMeta(old(summary.storage), epoch, MetaAt(summary.storage, epoch));
    }
  }

  lemma BlockAdds(rewards: map<int, nat>, before: map<int, nat>, perSync: nat, seat: seq<int>, i: nat)
    requires i < |seat| && RewardsGrew(rewards, before, perSync, BlocksUpTo(seat[..i])) && seat[i] in before
    ensures RewardsGrew(rewards, before[seat[i] := before[seat[i]] + perSync], perSync, BlocksUpTo(seat[..i + 1]))
  {
    assert seat[..i + 1] == seat[..i] + [seat[i]];
    forall b | b in rewards
      ensures BlocksUpTo(seat[..i + 1])(b) == BlocksUpTo(seat[..i])(b) + if b == seat[i] then 1 else 0
    {
    }
    OneMore(BlocksUpTo(seat[..i])(seat[i]), perSync);
  }

  lemma SeatAdds(rewards: map<int, nat>, before: map<int, nat>, after: map<int, nat>, perSync: nat, seats: seq<seq<int>>, k: nat)
    requires k < |seats| && RewardsGrew(rewards, before, perSync, SeatsUpTo(seats[..k]))
    requires RewardsGrew(before, after, perSync, BlocksUpTo(seats[k]))
    ensures RewardsGrew(rewards, after, perSync, SeatsUpTo(seats[..k + 1]))
  {
    assert seats[..k + 1][..k] == seats[..k];
    forall b | b in rewards
      ensures after[b] == rewards[b] + perSync * SeatsUpTo(seats[..k + 1])(b)
    {
      Distribute(perSync, SeatsUpTo(seats[..k])(b), BlocksUpTo(seats[k])(b));
    }
  }

  lemma Distribute(k: int, a: int, b: int)
    ensures k * (a + b) == k * a + k * b
  {
  }

  /** How often one validator synced each block, over all its seats. */
  ghost function SyncedBy(duties: map<int, Duty>, v: int): int -> int {
    b => SyncedTimes(duties, b)(v)
  }

  lemma SyncedByOne(duties: map<int, Duty>, v: int, rewards: map<int, nat>, rewards': map<int, nat>, perSync: nat)
    requires var d := DutyIn(duties, v).sync;
      if Truthy(d.isSync) then d.seats.Some? && (SeatsIn(d.seats.value, rewards) ==> RewardsGrew(rewards, rewards', perSync, SeatsUpTo(d.seats.value)))
      else rewards' == rewards
    ensures SeatsKnown(DutyIn(duties, v).sync, rewards) ==> RewardsGrew(rewards, rewards', perSync, SyncedBy(duties, v))
  {
    var d := DutyIn(duties, v).sync;
    forall b | b in rewards
      ensures SyncedBy(duties, v)(b) == if Truthy(d.isSync) && d.seats.Some? then SeatsUpTo(d.seats.value)(b) else 0
    {
      SyncedTimesIs(duties, b, v);
    }
  }

  lemma SyncedTimesIs(duties: map<int, Duty>, b: int, v: int)
    ensures var d := DutyIn(duties, v).sync;
      SyncedTimes(duties, b)(v) == if Truthy(d.isSync) && d.seats.Some? then SumSeq(d.seats.value, SeatCount(b)) else 0
  {
  }

  /** Reads of duties and of metadata answer alike in both stores. */
  ghost predicate SameReads(st: Storage, st': Storage) {
    forall e :: InfoAt(st', e) == InfoAt(st, e)
  }

  lemma SameReadsTouch(st: Storage, st': Storage, epoch: int)
    requires SameReads(st, st')
    ensures SameReads(st, Touch(st', epoch))
  {
  }

  /** The validators `done` have been accounted for. */
  ghost predicate Progress(m: EpochMeta, curr: map<int, Duty>, prev: map<int, Duty>, perSync: nat, done: set<int>,
                           p: Participation, rewards: map<int, nat>) {
    && (forall v :: v in done ==> Fillable(curr, m.sync.rewards, v))
    && ParticipationGrew(m.att.participation, p, curr, prev, done)
    && RewardsGrew(m.sync.rewards, rewards, perSync, SyncedUpTo(curr, done))
  }

  lemma NothingDone(m: EpochMeta, curr: map<int, Duty>, prev: map<int, Duty>, perSync: nat)
    ensures Progress(m, curr, prev, perSync, {}, m.att.participation, m.sync.rewards)
  {
  }

  lemma AllDone(m: EpochMeta, curr: map<int, Duty>, prev: map<int, Duty>, perSync: nat, p: Participation, rewards: map<int, nat>)
    requires Progress(m, curr, prev, perSync, curr.Keys, p, rewards)
    ensures AllFillable(m, curr)
    ensures ParticipationGrew(m.att.participation, p, curr, prev, curr.Keys)
    ensures RewardsGrew(m.sync.rewards, rewards, perSync, SyncedUpTo(curr, curr.Keys))
  {
    hide Fillable, ParticipationGrew, RewardsGrew;
  }

  lemma FillableByKeys(duties: map<int, Duty>, rewards: map<int, nat>, rewards': map<int, nat>, v: int)
    requires rewards.Keys == rewards'.Keys
    ensures Fillable(duties, rewards, v) <==> Fillable(duties, rewards', v)
  {
    assert forall b :: b in rewards <==> b in rewards';
  }

  lemma CannotFill(m: EpochMeta, curr: map<int, Duty>, prev: map<int, Duty>, perSync: nat, done: set<int>,
                   p: Participation, rewards: map<int, nat>, v: int)
    requires Progress(m, curr, prev, perSync, done, p, rewards) && v in curr && !Fillable(curr, rewards, v)
    ensures !AllFillable(m, curr)
  {
    FillableByKeys(curr, m.sync.rewards, rewards, v);
    hide Fillable;
  }

  lemma OneMoreDone(m: EpochMeta, curr: map<int, Duty>, prev: map<int, Duty>, perSync: nat, done: set<int>,
                    p: Participation, rewards: map<int, nat>, p': Participation, rewards': map<int, nat>, v: int)
    requires Progress(m, curr, prev, perSync, done, p, rewards) && v !in done && Fillable(curr, rewards, v)
    requires p' == Participation(p.source + Taking(curr, prev, SourceFlag)(v), p.target + Taking(curr, prev, TargetFlag)(v),
                                 p.head + Taking(curr, prev, HeadFlag)(v))
    requires RewardsGrew(rewards, rewards', perSync, SyncedBy(curr, v))
    ensures Progress(m, curr, prev, perSync, done + {v}, p', rewards')
  {
    hide Taking, SumSet, Fillable, SyncedUpTo, SyncedBy;
    OneMoreSynced(m.sync.rewards, rewards, rewards', perSync, curr, done, v);
    FillableByKeys(curr, m.sync.rewards, rewards, v);
    hide RewardsGrew;
    SumSetAdd(done, v, Taking(curr, prev, SourceFlag));
    SumSetAdd(done, v, Taking(curr, prev, TargetFlag));
    SumSetAdd(done, v, Taking(curr, prev, HeadFlag));
  }

  lemma OneMoreSynced(rewards0: map<int, nat>, rewards: map<int, nat>, rewards': map<int, nat>, perSync: nat,
                      duties: map<int, Duty>, done: set<int>, v: int)
    requires RewardsGrew(rewards0, rewards, perSync, SyncedUpTo(duties, done)) && v !in done
    requires RewardsGrew(rewards, rewards', perSync, SyncedBy(duties, v))
    ensures RewardsGrew(rewards0, rewards', perSync, SyncedUpTo(duties, done + {v}))
  {
    hide SumSet, SyncedTimes;
    forall b | b in rewards0
      ensures rewards'[b] == rewards0[b] + perSync * SyncedUpTo(duties, done + {v})(b)
    {
      SumSetAdd(done, v, SyncedTimes(duties, b));
      Distribute(perSync, SyncedUpTo(duties, done)(b), SyncedBy(duties, v)(b));
    }
  }

  // ---- conservation, down to the stored metadata -----------------------------------------------

  ghost function AsRewards(rewards: map<int, nat>): int -> int {
    b => if b in rewards then rewards[b] else 0
  }

  /** The sum over all blocks. */
  ghost function TotalRewards(rewards: map<int, nat>): int {
    SumSet(rewards.Keys, AsRewards(rewards))
  }

  /** What the fill stores is what the aggregates are worth, up to one rounding per aggregate. */
  lemma StoredProposerRewardsConserve(st: Storage, epoch: int, aggs: seq<Aggregate>, m': EpochMeta, perIncrement: nat)
    requires ProposalRewards.BlocksKnown(st, epoch, aggs)
    requires forall b :: b in ListsAt(st, epoch) ==> ListsAt(st, epoch)[b] == []
    requires forall te, v, f :: !Has(st, te, v, f)
    requires MetaAt(st, epoch).att.rewards.Keys == ListsAt(st, epoch).Keys
    requires forall b :: b in MetaAt(st, epoch).att.rewards ==> MetaAt(st, epoch).att.rewards[b] == 0
    requires perIncrement == MetaAt(st, epoch).state.baseReward
    requires ProposalFilled(MetaAt(RunAll(st, epoch, aggs), epoch), m', DutiesAt(RunAll(st, epoch, aggs), epoch))
    ensures var st' := RunAll(st, epoch, aggs);
            var total, worth := TotalRewards(m'.att.rewards), ProposalRewards.FlagsWorth(st', BaseReward(DutiesAt(st', epoch), perIncrement));
      worth - 447 * |aggs| <= 448 * total <= worth
  {
    var st' := RunAll(st, epoch, aggs);
    var base := BaseReward(DutiesAt(st', epoch), perIncrement);
    RunAllKeepsRewards(st, epoch, aggs);
    ProposalRewards.ProposerRewardConservation(st, epoch, aggs, base);
    StoredIsTotal(MetaAt(st', epoch), m', DutiesAt(st', epoch));
    hide RunAll, ProposalRewards.FlagsWorth, ProposalRewards.TotalWorth, TotalRewards, BaseReward, DutiesAt, ProposalFilled, Has;
  }

  lemma StoredIsTotal(m: EpochMeta, m': EpochMeta, duties: map<int, Duty>)
    requires ProposalFilled(m, m', duties) && m.att.rewards.Keys == m.att.attestations.Keys
    requires forall b :: b in m.att.rewards ==> m.att.rewards[b] == 0
    ensures TotalRewards(m'.att.rewards) == ProposalRewards.TotalWorth(m.att.attestations, ShareOf(duties, m.state.baseReward))
  {
    var share := ShareOf(duties, m.state.baseReward);
    var worth := ProposalRewards.BlockWorth(m.att.attestations, share);
    hide ShareOf, SumSeq, SumSet;
    forall b | b in m'.att.rewards.Keys
      ensures AsRewards(m'.att.rewards)(b) == worth(b)
    {
    }
    SumSetCongruent(m'.att.rewards.Keys, AsRewards(m'.att.rewards), worth);
  }

  /** A run touches nothing of the metadata but the lists. */
  lemma {:induction false} RunAllKeepsRewards(st: Storage, epoch: int, aggs: seq<Aggregate>)
    ensures var m, m' := MetaAt(st, epoch), MetaAt(RunAll(st, epoch, aggs), epoch);
      m' == m.(att := m.att.(attestations := m'.att.attestations)) && m'.att.attestations.Keys == m.att.attestations.Keys
  {
    if aggs != [] {
      var init, agg := aggs[..|aggs| - 1], aggs[|aggs| - 1];
      RunAllKeepsRewards(st, epoch, init);
      IncludeAllKeepsMeta(World(RunAll(st, epoch, init), NO_CREDIT), agg.targetEpoch, agg.members, agg.incDelay, agg.flags, epoch);
      hide IncludeAll;
    }
  }

  lemma ShareIs(duties: map<int, Duty>, perIncrement: nat, c: Credit)
    ensures var numerator := ProposalRewards.Numerator(BaseReward(duties, perIncrement))(c);
      ShareOf(duties, perIncrement)(c) == ProposalRewards.ProposerAttPartReward(numerator)
  {
    hide SumSeq, BaseReward;
  }

  lemma EmptyShares(duties: map<int, Duty>, perIncrement: nat)
    ensures SumSeq([], ShareOf(duties, perIncrement)) == 0
  {
  }
}
