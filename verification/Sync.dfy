/** Sync committee duties. A validator may hold several seats; each seat is walked on its own and the lists
    are kept apart, so that totals by validator and totals by block count every set bit once. */
module Sync {
  import opened Constants
  import opened Options
  import opened Sums
  import opened Summary
  import opened SyncConstants
  import opened DutyMetadata
  import opened AttestationAccounting
  import Attestation

  /** A block of the epoch and the bits of its sync aggregate. */
  datatype BlockBits = BlockBits(block: int, bits: seq<bool>)

  function EpochBlocks(blocks: map<int, seq<bool>>, lo: int, hi: int): seq<BlockBits>
    requires lo <= hi
    decreases hi - lo
  {
    if lo == hi then []
    else EpochBlocks(blocks, lo, hi - 1) + if hi - 1 in blocks then [BlockBits(hi - 1, blocks[hi - 1])] else []
  }

  function BlocksOf(epoch: int, blocks: map<int, seq<bool>>): seq<BlockBits> {
    EpochBlocks(blocks, epoch * SLOTS_PER_EPOCH, (epoch + 1) * SLOTS_PER_EPOCH)
  }

  /** The blocks a seat signed. */
  function Synced(blocks: seq<BlockBits>, seat: int): seq<int> {
    if blocks == [] then []
    else
      var last := blocks[|blocks| - 1];
      Synced(blocks[..|blocks| - 1], seat) + if Attestation.Bit(last.bits, seat) then [last.block] else []
  }

  function SyncedLengths(seats: seq<seq<int>>): nat {
    if seats == [] then 0 else SyncedLengths(seats[..|seats| - 1]) + |seats[|seats| - 1]|
  }

  function Percent(part: nat, total: nat): real {
    if total == 0 then 100.0 else part as real / total as real * 100.0
  }

  function SyncPercent(seats: seq<seq<int>>, nBlocks: nat): real {
    Percent(SyncedLengths(seats), nBlocks * |seats|)
  }

  /** What the program writes for one seat. */
  function SeatPatch(d: SyncDuty, synced: seq<int>, nBlocks: nat): SyncDuty {
    if Truthy(d.isSync) then
      var seats := d.seats.GetOr([]) + [synced];
      SyncDuty(None, Some(SyncPercent(seats, nBlocks)), Some(seats))
    else SyncDuty(Some(true), Some(SyncPercent([synced], nBlocks)), Some([synced]))
  }

  function SyncSeat(st: Storage, epoch: int, v: int, synced: seq<int>, nBlocks: nat): Storage {
    PatchDuty(st, epoch, v, NO_DUTY.(sync := SeatPatch(DutyAt(st, epoch, v).sync, synced, nBlocks)))
  }

  function SyncSeats(st: Storage, epoch: int, committee: seq<int>, blocks: seq<BlockBits>): Storage {
    if committee == [] then st
    else
      var last := |committee| - 1;
      SyncSeat(SyncSeats(st, epoch, committee[..last], blocks), epoch, committee[last], Synced(blocks, last), |blocks|)
  }

  function Slots(blocks: seq<BlockBits>): seq<int> {
    seq(|blocks|, i requires 0 <= i < |blocks| => blocks[i].block)
  }

  function SyncChecked(st: Storage, epoch: int, committee: seq<int>, blocks: seq<BlockBits>): Storage {
    PatchMeta(SyncSeats(st, epoch, committee, blocks), epoch, MetaPatch(None, None, Some(Slots(blocks))))
  }

  class SyncService {
    const summary: SummaryService

    constructor (summary: SummaryService)
      ensures this.summary == summary
    {
      this.summary := summary;
    }

    /** One turn of the loop over the committee. */
    method CheckSeat(epoch: int, v: int, seat: int, blocks: seq<BlockBits>)
      modifies summary
      ensures summary.storage == SyncSeat(old(summary.storage), epoch, v, Synced(blocks, seat), |blocks|)
    {
      var syncedBlocks := [];
      for i := 0 to |blocks|
        invariant summary.storage == old(summary.storage)
        invariant syncedBlocks == Synced(blocks[..i], seat)
      {
        assert blocks[..i + 1][..i] == blocks[..i];
        if Attestation.Bit(blocks[i].bits, seat) {
          syncedBlocks := syncedBlocks + [blocks[i].block];
        }
      }
      assert blocks[..|blocks|] == blocks;
      hide Synced;
      var summaryValidator := summary.Get(epoch, v);
      var d := if summaryValidator.Some? then summaryValidator.value.sync else NO_SYNC;
      var patch := NO_DUTY.(sync := SeatPatch(d, syncedBlocks, |blocks|));
      summary.Set(epoch, v, patch);
      Attestation.TouchedPatch(old(summary.storage), epoch, v, patch);
    }

    method GetEpochBlocks(epoch: int, blocks: map<int, seq<bool>>) returns (epochBlocks: seq<BlockBits>)
      ensures epochBlocks == BlocksOf(epoch, blocks)
    {
      epochBlocks := [];
      var startSlot := epoch * SLOTS_PER_EPOCH;
      for slot := startSlot to startSlot + SLOTS_PER_EPOCH
        invariant epochBlocks == EpochBlocks(blocks, startSlot, slot)
      {
        if slot in blocks {
          epochBlocks := epochBlocks + [BlockBits(slot, blocks[slot])];
        }
      }
    }

    method Check(epoch: int, committee: seq<int>, blocks: map<int, seq<bool>>)
      modifies summary
      ensures summary.storage == SyncChecked(old(summary.storage), epoch, committee, BlocksOf(epoch, blocks))
    {
      var epochBlocks := GetEpochBlocks(epoch, blocks);
      hide SyncSeat, BlocksOf;
      for seat := 0 to |committee|
        invariant summary.storage == SyncSeats(old(summary.storage), epoch, committee[..seat], epochBlocks)
      {
        assert committee[..seat + 1][..seat] == committee[..seat];
        CheckSeat(epoch, committee[seat], seat, epochBlocks);
      }
      assert committee[..|committee|] == committee;
      summary.SetMeta(epoch, MetaPatch(None, None, Some(Slots(epochBlocks))));
    }
  }

  // ---- what the lists mean ---------------------------------------------------------------------

  /** The seats a validator holds, in committee order, each with the blocks it signed. */
  function SeatsOf(v: int, committee: seq<int>, blocks: seq<BlockBits>): seq<seq<int>> {
    if committee == [] then []
    else
      var last := |committee| - 1;
      SeatsOf(v, committee[..last], blocks) + if committee[last] == v then [Synced(blocks, last)] else []
  }

  lemma SyncSeatEffect(st: Storage, epoch: int, v: int, synced: seq<int>, nBlocks: nat, e: int, u: int)
    requires Truthy(DutyAt(st, epoch, v).sync.isSync) <==> DutyAt(st, epoch, v).sync.seats.Some?
    ensures var d, d' := DutyAt(st, e, u), DutyAt(SyncSeat(st, epoch, v, synced, nBlocks), e, u);
            var seats := d.sync.seats.GetOr([]) + [synced];
      d' == if (e, u) == (epoch, v) then d.(sync := SyncDuty(Some(true), Some(SyncPercent(seats, nBlocks)), Some(seats))) else d
  {
    hide SyncPercent;
    AppendedSeatSurvivesMerge(DutyAt(st, epoch, v).sync.seats.GetOr([]), synced);
    hide MergeSeats;
    assert [] + [synced] == [synced];
  }

  /** The sync fields of a validator holding these seats; none of them for a validator without a seat. */
  function SyncOf(seats: seq<seq<int>>, nBlocks: nat): SyncDuty {
    if seats == [] then NO_SYNC else SyncDuty(Some(true), Some(SyncPercent(seats, nBlocks)), Some(seats))
  }

  lemma OneSeatMore(seats: seq<seq<int>>, synced: seq<int>, nBlocks: nat)
    ensures SyncOf(seats, nBlocks).seats.GetOr([]) == seats
    ensures SyncOf(seats + [synced], nBlocks) == SyncDuty(Some(true), Some(SyncPercent(seats + [synced], nBlocks)), Some(seats + [synced]))
  {
    hide SyncPercent;
  }

  /** After the check a validator is a sync member exactly if it holds a seat, and its record lists every seat
      it holds with exactly the blocks whose bit for that seat is set. */
  lemma {:induction false} SeatsMeaning(st: Storage, epoch: int, committee: seq<int>, blocks: seq<BlockBits>, v: int)
    requires forall u :: DutyAt(st, epoch, u).sync == NO_SYNC
    ensures DutyAt(SyncSeats(st, epoch, committee, blocks), epoch, v) == DutyAt(st, epoch, v).(sync := SyncOf(SeatsOf(v, committee, blocks), |blocks|))
    ensures v in committee <==> SeatsOf(v, committee, blocks) != []
  {
    if committee != [] {
      var init, w, seat := committee[..|committee| - 1], committee[|committee| - 1], |committee| - 1;
      var mid := SyncSeats(st, epoch, init, blocks);
      assert committee == init + [w];
      SeatsSnoc(st, epoch, init, w, blocks, v);
      hide SyncSeats, SeatsOf, SyncSeat, SyncPercent, Synced, DutyAt;
      SeatsMeaning(st, epoch, init, blocks, v);
      SeatsMeaning(st, epoch, init, blocks, w);
      SyncSeatEffect(mid, epoch, w, Synced(blocks, seat), |blocks|, epoch, v);
      OneSeatMore(SeatsOf(w, init, blocks), Synced(blocks, seat), |blocks|);
      hide SyncOf;
    }
  }

  lemma SeatsSnoc(st: Storage, epoch: int, init: seq<int>, w: int, blocks: seq<BlockBits>, v: int)
    ensures SyncSeats(st, epoch, init + [w], blocks)
         == SyncSeat(SyncSeats(st, epoch, init, blocks), epoch, w, Synced(blocks, |init|), |blocks|)
    ensures SeatsOf(v, init + [w], blocks) == if w == v then SeatsOf(v, init, blocks) + [Synced(blocks, |init|)] else SeatsOf(v, init, blocks)
  {
    assert (init + [w])[..|init|] == init;
    hide SyncSeat, Synced;
  }

  lemma {:induction false} SyncedAtMost(blocks: seq<BlockBits>, seat: int)
    ensures |Synced(blocks, seat)| <= |blocks|
  {
    if blocks != [] {
      SyncedAtMost(blocks[..|blocks| - 1], seat);
    }
  }

  lemma LengthsSnoc(seats: seq<seq<int>>, seat: seq<int>, n: nat)
    requires SyncedLengths(seats) <= n * |seats| && |seat| <= n
    ensures SyncedLengths(seats + [seat]) <= n * |seats + [seat]|
  {
    assert (seats + [seat])[..|seats|] == seats;
    assert n * (|seats| + 1) == n * |seats| + n;
  }

  lemma {:induction false} SignedAtMost(v: int, committee: seq<int>, blocks: seq<BlockBits>)
    ensures var seats := SeatsOf(v, committee, blocks); SyncedLengths(seats) <= |blocks| * |seats|
  {
    if committee != [] {
      hide Synced, SyncedLengths;
      var last := |committee| - 1;
      SignedAtMost(v, committee[..last], blocks);
      SyncedAtMost(blocks, last);
      var before := SeatsOf(v, committee[..last], blocks);
      if committee[last] == v {
        assert SeatsOf(v, committee, blocks) == before + [Synced(blocks, last)];
        LengthsSnoc(before, Synced(blocks, last), |blocks|);
      } else {
        assert SeatsOf(v, committee, blocks) == before;
      }
    }
  }

  /** The recorded percentage is the share of set bits among all bits of the validator's seats, and full if there was
      no block to sign. */
  lemma PercentIsShare(v: int, committee: seq<int>, blocks: seq<BlockBits>)
    ensures var seats := SeatsOf(v, committee, blocks);
            var percent, all := SyncPercent(seats, |blocks|), |blocks| * |seats|;
      && 0.0 <= percent <= 100.0
      && (all == 0 ==> percent == 100.0)
      && percent * all as real == 100.0 * SyncedLengths(seats) as real
  {
    hide SeatsOf, SyncedLengths, Percent;
    SignedAtMost(v, committee, blocks);
    var seats := SeatsOf(v, committee, blocks);
    ShareInRange(SyncedLengths(seats), |blocks| * |seats|);
  }

  lemma ShareInRange(part: nat, all: nat)
    requires part <= all
    ensures var p := Percent(part, all); 0.0 <= p <= 100.0 && (all == 0 ==> p == 100.0) && p * all as real == 100.0 * part as real
  {
    if all > 0 {
      var q := part as real / all as real;
      assert q * all as real == part as real;
      assert 0.0 <= q <= 1.0;
    }
  }

  // ---- totals ----------------------------------------------------------------------------------

  ghost function SeatsWorth(duties: map<int, Duty>, h: seq<int> -> int): int {
    SumSet(duties.Keys, SeatWorth(duties, h))
  }

  /** Any measure summed over the seats of the committee. */
  ghost function CommitteeWorth(n: nat, blocks: seq<BlockBits>, h: seq<int> -> int): int {
    if n == 0 then 0 else CommitteeWorth(n - 1, blocks, h) + h(Synced(blocks, n - 1))
  }

  lemma SyncSeatDuties(st: Storage, epoch: int, v: int, synced: seq<int>, nBlocks: nat)
    ensures DutiesAt(SyncSeat(st, epoch, v, synced, nBlocks), epoch)
         == DutiesAt(st, epoch)[v := DutyAt(SyncSeat(st, epoch, v, synced, nBlocks), epoch, v)]
  {
    hide SeatPatch;
  }

  /** One more seat adds its own measure, whoever holds it and however many seats they hold already. */
  lemma SyncSeatAdds(st: Storage, epoch: int, v: int, synced: seq<int>, nBlocks: nat, h: seq<int> -> int)
    requires Truthy(DutyAt(st, epoch, v).sync.isSync) <==> DutyAt(st, epoch, v).sync.seats.Some?
    ensures SeatsWorth(DutiesAt(SyncSeat(st, epoch, v, synced, nBlocks), epoch), h) == SeatsWorth(DutiesAt(st, epoch), h) + h(synced)
  {
    var duties, duties' := DutiesAt(st, epoch), DutiesAt(SyncSeat(st, epoch, v, synced, nBlocks), epoch);
    SyncSeatDuties(st, epoch, v, synced, nBlocks);
    SyncSeatEffect(st, epoch, v, synced, nBlocks, epoch, v);
    var d, d' := DutyIn(duties, v).sync, DutyIn(duties', v).sync;
    assert duties' == duties[v := duties'[v]];
    hide SyncSeat, SyncPercent;
    SumSeqSnoc(d.seats.GetOr([]), synced, h);
    assert SeatWorth(duties', h)(v) == SeatWorth(duties, h)(v) + h(synced) by {
      assert SumSeq([], h) == 0;
    }
    assert duties'.Keys == duties.Keys + {v};
    AddAt(duties.Keys, v, SeatWorth(duties, h), SeatWorth(duties', h));
  }

  lemma AddAt(s: set<int>, v: int, f: int -> int, g: int -> int)
    requires forall u :: u != v ==> f(u) == g(u)
    requires v !in s ==> f(v) == 0
    ensures SumSet(s + {v}, g) == SumSet(s, f) + g(v) - f(v)
  {
    forall u | u in s && u != v
      ensures f(u) == g(u)
    {
    }
    hide SumSet;
    if v in s {
      assert s + {v} == s;
      SumSetUpdate(s, v, f, g);
    } else {
      SumSetAdd(s, v, g);
      SumSetCongruent(s, f, g);
    }
  }

  lemma {:induction false} SeatsTotal(st: Storage, epoch: int, committee: seq<int>, blocks: seq<BlockBits>, h: seq<int> -> int)
    requires forall u :: DutyAt(st, epoch, u).sync == NO_SYNC
    ensures SeatsWorth(DutiesAt(SyncSeats(st, epoch, committee, blocks), epoch), h) == CommitteeWorth(|committee|, blocks, h)
  {
    if committee == [] {
      var duties := DutiesAt(st, epoch);
      forall u | u in duties.Keys
        ensures SeatWorth(duties, h)(u) == 0
      {
        assert DutyAt(st, epoch, u).sync == NO_SYNC;
      }
      SumSetZero(duties.Keys, SeatWorth(duties, h));
    } else {
      var last := |committee| - 1;
      var mid := SyncSeats(st, epoch, committee[..last], blocks);
      SeatsTotal(st, epoch, committee[..last], blocks, h);
      SeatsMeaning(st, epoch, committee[..last], blocks, committee[last]);
      SyncSeatAdds(mid, epoch, committee[last], Synced(blocks, last), |blocks|, h);
      hide SyncSeat, SeatsWorth, Synced, DutiesAt;
    }
  }

  /** The set bits of one block among the first `n` seats. */
  function SetBits(bits: seq<bool>, n: nat): nat {
    if n == 0 then 0 else SetBits(bits, n - 1) + if Attestation.Bit(bits, n - 1) then 1 else 0
  }

  /** Counted over the whole bitfield this is the number of its set bits. */
  lemma {:induction false} SetBitsCountsAll(bits: seq<bool>, n: nat)
    requires n <= |bits|
    ensures SetBits(bits, n) == multiset(bits[..n])[true]
  {
    if n > 0 {
      SetBitsCountsAll(bits, n - 1);
      assert bits[..n] == bits[..n - 1] + [bits[n - 1]];
    }
  }

  /** The bits of block `b`, if the list holds it. */
  function BitsOf(blocks: seq<BlockBits>, b: int): Option<seq<bool>> {
    if blocks == [] then None
    else
      var last := blocks[|blocks| - 1];
      if last.block == b then Some(last.bits) else BitsOf(blocks[..|blocks| - 1], b)
  }

  /** No block is listed twice. */
  predicate Distinct(blocks: seq<BlockBits>) {
    blocks == [] || (Distinct(blocks[..|blocks| - 1]) && BitsOf(blocks[..|blocks| - 1], blocks[|blocks| - 1].block).None?)
  }

  lemma BitsOfSnoc(init: seq<BlockBits>, one: BlockBits, b: int)
    ensures BitsOf(init + [one], b) == if one.block == b then Some(one.bits) else BitsOf(init, b)
    ensures Distinct(init + [one]) <==> Distinct(init) && BitsOf(init, one.block).None?
  {
    assert (init + [one])[..|init|] == init;
  }

  lemma {:induction false} EpochBlocksAre(blocks: map<int, seq<bool>>, lo: int, hi: int, b: int)
    requires lo <= hi
    ensures BitsOf(EpochBlocks(blocks, lo, hi), b) == if lo <= b < hi && b in blocks then Some(blocks[b]) else None
    ensures Distinct(EpochBlocks(blocks, lo, hi))
    decreases hi - lo
  {
    if lo < hi {
      hide BitsOf, Distinct;
      EpochBlocksAre(blocks, lo, hi - 1, b);
      EpochBlocksAre(blocks, lo, hi - 1, hi - 1);
      var init := EpochBlocks(blocks, lo, hi - 1);
      if hi - 1 in blocks {
        BitsOfSnoc(init, BlockBits(hi - 1, blocks[hi - 1]), b);
      } else {
        assert EpochBlocks(blocks, lo, hi) == init;
      }
    }
  }

  function SetBit(bits: Option<seq<bool>>, seat: int): nat {
    if bits.Some? && Attestation.Bit(bits.value, seat) then 1 else 0
  }

  lemma {:induction false} SyncedTimesOfSeat(blocks: seq<BlockBits>, seat: int, b: int)
    requires Distinct(blocks)
    ensures Times(Synced(blocks, seat), b) == SetBit(BitsOf(blocks, b), seat)
  {
    if blocks != [] {
      SyncedTimesOfSeat(blocks[..|blocks| - 1], seat, b);
    }
  }

  lemma {:induction false} CommitteeCountsBits(n: nat, blocks: seq<BlockBits>, b: int)
    requires Distinct(blocks)
    ensures CommitteeWorth(n, blocks, SeatCount(b)) == if BitsOf(blocks, b).Some? then SetBits(BitsOf(blocks, b).value, n) else 0
  {
    hide Synced, BitsOf, Times, Distinct;
    if n > 0 {
      CommitteeCountsBits(n - 1, blocks, b);
      SyncedTimesOfSeat(blocks, n - 1, b);
      assert SeatCount(b)(Synced(blocks, n - 1)) == Times(Synced(blocks, n - 1), b);
    }
  }

  lemma CheckedDuties(st: Storage, epoch: int, committee: seq<int>, blocks: seq<BlockBits>)
    ensures DutiesAt(SyncChecked(st, epoch, committee, blocks), epoch) == DutiesAt(SyncSeats(st, epoch, committee, blocks), epoch)
  {
    hide SyncSeats;
  }

  /** Each block's sync reward is the per-sync proposer reward times the set bits of that block, however the
      seats are shared out among validators; a slot without a block gets nothing. */
  lemma BlockSyncReward(st: Storage, epoch: int, committee: seq<int>, blocks: map<int, seq<bool>>,
                        rewards: map<int, nat>, rewards': map<int, nat>, perSync: nat, b: int)
    requires forall u :: DutyAt(st, epoch, u).sync == NO_SYNC
    requires var duties := DutiesAt(SyncChecked(st, epoch, committee, BlocksOf(epoch, blocks)), epoch);
      RewardsGrew(rewards, rewards', perSync, SyncedUpTo(duties, duties.Keys))
    requires b in rewards && rewards[b] == 0
    ensures rewards'[b] == if b / SLOTS_PER_EPOCH == epoch && b in blocks then perSync * SetBits(blocks[b], |committee|) else 0
  {
    hide SyncChecked, SeatsWorth, SetBits, BlocksOf, SyncedUpTo;
    var duties := DutiesAt(SyncChecked(st, epoch, committee, BlocksOf(epoch, blocks)), epoch);
    SeatsSigned(st, epoch, committee, blocks, b);
    SyncedUpToIs(duties, b);
  }

  /** Over all validators and seats, a block was signed as often as it has set bits. */
  lemma SeatsSigned(st: Storage, epoch: int, committee: seq<int>, blocks: map<int, seq<bool>>, b: int)
    requires forall u :: DutyAt(st, epoch, u).sync == NO_SYNC
    ensures SeatsWorth(DutiesAt(SyncChecked(st, epoch, committee, BlocksOf(epoch, blocks)), epoch), SeatCount(b))
         == if b / SLOTS_PER_EPOCH == epoch && b in blocks then SetBits(blocks[b], |committee|) else 0
  {
    var list := BlocksOf(epoch, blocks);
    CheckedDuties(st, epoch, committee, list);
    SeatsTotal(st, epoch, committee, list, SeatCount(b));
    EpochBlocksAre(blocks, epoch * SLOTS_PER_EPOCH, (epoch + 1) * SLOTS_PER_EPOCH, b);
    CommitteeCountsBits(|committee|, list, b);
    hide SyncChecked, SyncSeats, CommitteeWorth, SeatsWorth, BitsOf, EpochBlocks, SetBits, SeatCount, DutiesAt, Distinct, DutyAt;
  }

  lemma SyncedUpToIs(duties: map<int, Duty>, b: int)
    ensures SyncedUpTo(duties, duties.Keys)(b) == SeatsWorth(duties, SeatCount(b))
  {
    hide SumSet, SeatWorth;
  }

  // ---- rewards of the members ------------------------------------------------------------------

  /** What one member earns, misses and is penalised by, from its seats. */
  function RewardOf(seats: seq<seq<int>>, nBlocks: nat, perBlock: nat): Rewards {
    var totalBlocksToSync := nBlocks * |seats|;
    var earned := perBlock * SyncedLengths(seats);
    Rewards(Some(earned), Some(perBlock * totalBlocksToSync - earned), Some(perBlock * (totalBlocksToSync - SyncedLengths(seats))))
  }

  predicate HasSeats(d: Duty) {
    Truthy(d.sync.isSync) ==> d.sync.seats.Some?
  }

  predicate IsMember(d: Duty) {
    Truthy(d.sync.isSync) && d.sync.seats.Some?
  }

  /** Every sync member, and nobody else, has its reward set. */
  ghost predicate Rewarded(duties: map<int, Duty>, duties': map<int, Duty>, done: set<int>, nBlocks: nat, perBlock: nat) {
    && duties'.Keys == duties.Keys
    && forall v :: v in duties ==>
         duties'[v] == if v in done && IsMember(duties[v]) then duties[v].(syncRewards := RewardOf(duties[v].sync.seats.value, nBlocks, perBlock))
                       else duties[v]
  }

  /** No metadata changes, and no duties of another epoch. */
  ghost predicate OnlyDutiesOf(epoch: int, st: Storage, st': Storage) {
    (forall e :: MetaAt(st', e) == MetaAt(st, e)) && forall e :: e != epoch ==> DutiesAt(st', e) == DutiesAt(st, e)
  }

  /** Once one more member has its reward. */
  lemma OneMoreRewarded(st: Storage, before: Storage, epoch: int, v: int, done: set<int>, nBlocks: nat, perBlock: nat)
    requires v in DutiesAt(st, epoch) && v !in done && HasSeats(DutiesAt(st, epoch)[v])
    requires Rewarded(DutiesAt(st, epoch), DutiesAt(before, epoch), done, nBlocks, perBlock) && OnlyDutiesOf(epoch, st, before)
    ensures var d := DutiesAt(st, epoch)[v];
            var st' := if Truthy(d.sync.isSync)
                       then PatchDuty(before, epoch, v, NO_DUTY.(syncRewards := RewardOf(d.sync.seats.value, nBlocks, perBlock)))
                       else before;
      Rewarded(DutiesAt(st, epoch), DutiesAt(st', epoch), done + {v}, nBlocks, perBlock) && OnlyDutiesOf(epoch, st, st')
  {
    hide SyncedLengths;
  }

  lemma SameSeats(duties: map<int, Duty>, duties': map<int, Duty>, done: set<int>, v: int, nBlocks: nat, perBlock: nat)
    requires Rewarded(duties, duties', done, nBlocks, perBlock) && v in duties && v !in done
    ensures duties'.Keys == duties.Keys && duties'[v] == duties[v]
  {
  }

  class SyncRewards {
    const summary: SummaryService

    constructor (summary: SummaryService)
      ensures this.summary == summary
    {
      this.summary := summary;
    }

    method RewardMember(epoch: int, v: int, seats: seq<seq<int>>, nBlocks: nat, perBlock: nat)
      modifies summary
      ensures summary.storage == PatchDuty(old(summary.storage), epoch, v, NO_DUTY.(syncRewards := RewardOf(seats, nBlocks, perBlock)))
    {
      var totalBlocksToSync := nBlocks * |seats|;
      var perfectSync := perBlock * totalBlocksToSync;
      var totalSyncedBlocksCount := 0;
      for k := 0 to |seats|
        invariant summary.storage == old(summary.storage)
        invariant totalSyncedBlocksCount == SyncedLengths(seats[..k])
      {
        assert seats[..k + 1][..k] == seats[..k];
        totalSyncedBlocksCount := totalSyncedBlocksCount + |seats[k]|;
      }
      assert seats[..|seats|] == seats;
      var earned := perBlock * totalSyncedBlocksCount;
      summary.Set(epoch, v, NO_DUTY.(syncRewards := Rewards(Some(earned), Some(perfectSync - earned),
                                                             Some(perBlock * (totalBlocksToSync - totalSyncedBlocksCount)))));
    }

    /** Fails exactly if a record is marked as a sync member's but has no seats. */
    method Calculate(epoch: int) returns (ok: bool)
      modifies summary
      ensures ok <==> forall v :: v in DutiesAt(old(summary.storage), epoch) ==> HasSeats(DutiesAt(old(summary.storage), epoch)[v])
      ensures ok ==> var m, duties := MetaAt(old(summary.storage), epoch), DutiesAt(old(summary.storage), epoch);
        && Rewarded(duties, DutiesAt(summary.storage, epoch), duties.Keys, |m.sync.blocksToSync|, m.sync.perBlockReward)
        && OnlyDutiesOf(epoch, old(summary.storage), summary.storage)
    {
      var meta := summary.GetMeta(epoch);
      ghost var duties := summary.storage[epoch].summary;
      assert duties == DutiesAt(old(summary.storage), epoch);
      var nBlocks, perBlock := |meta.sync.blocksToSync|, meta.sync.perBlockReward;
      var todo := summary.storage[epoch].summary.Keys;
      ghost var done: set<int> := {};
      hide Rewarded, OnlyDutiesOf, PatchDuty, RewardOf;
      ghost var st := old(summary.storage);
      while todo != {}
        invariant done + todo == duties.Keys && done !! todo
        invariant forall v :: v in done ==> HasSeats(duties[v])
        invariant epoch in summary.storage && Rewarded(duties, summary.storage[epoch].summary, done, nBlocks, perBlock)
        invariant OnlyDutiesOf(epoch, old(summary.storage), summary.storage)
      {
        var v := NextKey(todo);
        var d := summary.storage[epoch].summary[v];
        SameSeats(duties, summary.storage[epoch].summary, done, v, nBlocks, perBlock);
        if !HasSeats(d) {
          return false;
        }
        OneMoreRewarded(st, summary.storage, epoch, v, done, nBlocks, perBlock);
        if Truthy(d.sync.isSync) {
          RewardMember(epoch, v, d.sync.seats.value, nBlocks, perBlock);
        }
        todo, done := todo - {v}, done + {v};
      }
      assert done == duties.Keys;
      ok := true;
    }
  }

  ghost function LengthOf(): seq<int> -> int {
    (seat: seq<int>) => |seat|
  }

  ghost function OneSeat(): seq<int> -> int {
    (seat: seq<int>) => 1
  }

  ghost function EarnedBy(duties: map<int, Duty>): int -> int {
    v => DutyIn(duties, v).syncRewards.earned.GetOr(0)
  }

  ghost function PenaltyOf(duties: map<int, Duty>): int -> int {
    v => DutyIn(duties, v).syncRewards.penalty.GetOr(0)
  }

  ghost function MissedOf(duties: map<int, Duty>): int -> int {
    v => DutyIn(duties, v).syncRewards.missed.GetOr(0)
  }

  ghost function SetBitsOfAll(blocks: seq<BlockBits>, n: nat): nat {
    if blocks == [] then 0 else SetBitsOfAll(blocks[..|blocks| - 1], n) + SetBits(blocks[|blocks| - 1].bits, n)
  }

  lemma {:induction false} LengthsAreWorth(seats: seq<seq<int>>)
    ensures SumSeq(seats, LengthOf()) == SyncedLengths(seats)
    ensures SumSeq(seats, OneSeat()) == |seats|
  {
    if seats != [] {
      LengthsAreWorth(seats[..|seats| - 1]);
    }
  }

  lemma {:induction false} SyncedLength(blocks: seq<BlockBits>, n: nat)
    ensures SetBitsOfAll(blocks, n + 1) == SetBitsOfAll(blocks, n) + |Synced(blocks, n)|
  {
    if blocks != [] {
      SyncedLength(blocks[..|blocks| - 1], n);
    }
  }

  /** Counting set bits seat by seat or block by block gives the same number. */
  lemma {:induction false} CommitteeLengths(n: nat, blocks: seq<BlockBits>)
    ensures CommitteeWorth(n, blocks, LengthOf()) == SetBitsOfAll(blocks, n)
    ensures CommitteeWorth(n, blocks, OneSeat()) == n
  {
    if n == 0 {
      NoBits(blocks);
    } else {
      CommitteeLengths(n - 1, blocks);
      SyncedLength(blocks, n - 1);
    }
  }

  lemma {:induction false} NoBits(blocks: seq<BlockBits>)
    ensures SetBitsOfAll(blocks, 0) == 0
  {
    if blocks != [] {
      NoBits(blocks[..|blocks| - 1]);
    }
  }

  lemma MemberReward(d: Duty, nBlocks: nat, perBlock: nat)
    requires IsMember(d)
    ensures var r := RewardOf(d.sync.seats.value, nBlocks, perBlock);
            var synced, seats := SumSeq(d.sync.seats.value, LengthOf()), SumSeq(d.sync.seats.value, OneSeat());
      r.earned == Some(perBlock * synced) && r.penalty == r.missed == Some(perBlock * (nBlocks * seats - synced))
  {
    LengthsAreWorth(d.sync.seats.value);
    var all, synced: int := nBlocks * |d.sync.seats.value|, SyncedLengths(d.sync.seats.value);
    Distribute(perBlock, all, -synced);
  }

  /** The penalty for the bits left unset by `seats` seats over `nBlocks` blocks. */
  function Unsigned(perBlock: nat, nBlocks: nat, seats: int, synced: int): int {
    perBlock * (nBlocks * seats - synced)
  }

  lemma TotalsFromMembers(duties: map<int, Duty>, duties': map<int, Duty>, nBlocks: nat, perBlock: nat)
    requires Rewarded(duties, duties', duties.Keys, nBlocks, perBlock)
    requires forall v :: v in duties ==> duties[v].syncRewards == NO_REWARDS
    ensures SumSet(duties'.Keys, EarnedBy(duties')) == perBlock * SeatsWorth(duties, LengthOf())
    ensures SumSet(duties'.Keys, PenaltyOf(duties')) == Unsigned(perBlock, nBlocks, SeatsWorth(duties, OneSeat()), SeatsWorth(duties, LengthOf()))
    ensures SumSet(duties'.Keys, MissedOf(duties')) == SumSet(duties'.Keys, PenaltyOf(duties'))
  {
    assert duties'.Keys == duties.Keys;
    hide SumSet, Rewarded, SeatWorth, EarnedBy, PenaltyOf, MissedOf, LengthOf, OneSeat, Unsigned;
    MembersRewards(duties, duties', nBlocks, perBlock);
    SumSetScale(duties.Keys, SeatWorth(duties, LengthOf()), perBlock, EarnedBy(duties'));
    SumSetCongruent(duties.Keys, MissedOf(duties'), PenaltyOf(duties'));
    PenaltyTotal(duties.Keys, SeatWorth(duties, LengthOf()), SeatWorth(duties, OneSeat()), PenaltyOf(duties'), nBlocks, perBlock);
  }

  lemma MembersRewards(duties: map<int, Duty>, duties': map<int, Duty>, nBlocks: nat, perBlock: nat)
    requires Rewarded(duties, duties', duties.Keys, nBlocks, perBlock)
    requires forall v :: v in duties ==> duties[v].syncRewards == NO_REWARDS
    ensures forall v :: v in duties.Keys ==> EarnedBy(duties')(v) == perBlock * SeatWorth(duties, LengthOf())(v)
    ensures forall v :: v in duties.Keys ==>
              MissedOf(duties')(v) == PenaltyOf(duties')(v)
              == Unsigned(perBlock, nBlocks, SeatWorth(duties, OneSeat())(v), SeatWorth(duties, LengthOf())(v))
  {
    forall v | v in duties.Keys
      ensures EarnedBy(duties')(v) == perBlock * SeatWorth(duties, LengthOf())(v)
      ensures MissedOf(duties')(v) == PenaltyOf(duties')(v)
           == Unsigned(perBlock, nBlocks, SeatWorth(duties, OneSeat())(v), SeatWorth(duties, LengthOf())(v))
    {
      RewardOfValidator(duties, duties', v, nBlocks, perBlock);
      hide Rewarded, SeatWorth, EarnedBy, PenaltyOf, MissedOf;
    }
  }

  lemma RewardOfValidator(duties: map<int, Duty>, duties': map<int, Duty>, v: int, nBlocks: nat, perBlock: nat)
    requires Rewarded(duties, duties', duties.Keys, nBlocks, perBlock) && v in duties && duties[v].syncRewards == NO_REWARDS
    ensures EarnedBy(duties')(v) == perBlock * SeatWorth(duties, LengthOf())(v)
    ensures MissedOf(duties')(v) == PenaltyOf(duties')(v) == perBlock * (nBlocks * SeatWorth(duties, OneSeat())(v) - SeatWorth(duties, LengthOf())(v))
  {
    if IsMember(duties[v]) {
      MemberReward(duties[v], nBlocks, perBlock);
      hide RewardOf, SumSeq;
    }
  }

  lemma PenaltyTotal(s: set<int>, synced: int -> int, seats: int -> int, penalty: int -> int, nBlocks: nat, perBlock: nat)
    requires forall v :: v in s ==> penalty(v) == Unsigned(perBlock, nBlocks, seats(v), synced(v))
    ensures SumSet(s, penalty) == Unsigned(perBlock, nBlocks, SumSet(s, seats), SumSet(s, synced))
  {
    var all, unsynced := (v: int) => nBlocks * seats(v), (v: int) => nBlocks * seats(v) - synced(v);
    hide SumSet;
    forall v | v in s
      ensures penalty(v) == perBlock * unsynced(v)
      ensures all(v) == unsynced(v) + synced(v)
    {
    }
    SumSetScale(s, unsynced, perBlock, penalty);
    SumSetScale(s, seats, nBlocks, all);
    SumSetPlus(s, unsynced, synced, all);
  }
}
