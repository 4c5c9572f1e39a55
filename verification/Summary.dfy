/** The shared store of one processing round: per epoch, a record per validator and the epoch's
    metadata. Every writer goes through lodash `merge`, whose rules are spelled out here. */
module Summary {
  import opened Constants
  import opened Options

  datatype ValStatus =
    | PendingInitialized | PendingQueued
    | ActiveOngoing | ActiveExiting | ActiveSlashed
    | ExitedUnslashed | ExitedSlashed
    | WithdrawalPossible | WithdrawalDone

  /** The fields written from the beacon state. */
  datatype StateDuty = StateDuty(slashed: Option<bool>, status: Option<ValStatus>,
                                 balance: Option<nat>, effectiveBalance: Option<nat>)

  /** The attestation fields. */
  datatype AttDuty = AttDuty(happened: Option<bool>, incDelay: Option<int>,
                             source: Option<bool>, target: Option<bool>, head: Option<bool>)

  /** `seats` is `sync_meta`: one list of synced blocks per committee seat. */
  datatype SyncDuty = SyncDuty(isSync: Option<bool>, percent: Option<real>, seats: Option<seq<seq<int>>>)

  datatype ProposeDuty = ProposeDuty(isProposer: Option<bool>, blockToPropose: Option<int>, blockProposed: Option<bool>)

  datatype Rewards = Rewards(earned: Option<int>, missed: Option<int>, penalty: Option<int>)

  datatype Duty = Duty(state: StateDuty, withdrawn: Option<nat>, propose: ProposeDuty,
                       sync: SyncDuty, att: AttDuty, attRewards: Rewards, syncRewards: Rewards)

  const NO_STATE := StateDuty(None, None, None, None)
  const NO_ATT := AttDuty(None, None, None, None, None)
  const NO_SYNC := SyncDuty(None, None, None)
  const NO_PROPOSE := ProposeDuty(None, None, None)
  const NO_REWARDS := Rewards(None, None, None)
  const NO_DUTY := Duty(NO_STATE, None, NO_PROPOSE, NO_SYNC, NO_ATT, NO_REWARDS, NO_REWARDS)

  /** The three validator lists of one attestation: who earned each flag in it for the first time. */
  datatype Credit = Credit(source: seq<int>, target: seq<int>, head: seq<int>)

  const NO_CREDIT := Credit([], [], [])

  datatype StateMeta = StateMeta(activeValidators: nat, totalIncrements: nat, baseReward: nat)
  datatype Participation = Participation(source: nat, target: nat, head: nat)
  datatype AttMeta = AttMeta(participation: Participation, attestations: map<int, seq<Credit>>, rewards: map<int, nat>)
  datatype SyncMeta = SyncMeta(perBlockReward: nat, blocksToSync: seq<int>, rewards: map<int, nat>)
  datatype EpochMeta = EpochMeta(state: StateMeta, att: AttMeta, sync: SyncMeta)

  /** The argument of `setMeta`: the parts of the metadata the caller mentions. */
  datatype MetaPatch = MetaPatch(state: Option<StateMeta>, attestations: Option<map<int, seq<Credit>>>,
                                 blocksToSync: Option<seq<int>>)

  datatype EpochInfo = EpochInfo(summary: map<int, Duty>, meta: EpochMeta)

  type Storage = map<int, EpochInfo>

  // ---- merge ----------------------------------------------------------------------------------

  /** Arrays merge index by index: a longer destination keeps its tail. */
  function MergeSeq<T>(curr: seq<T>, src: seq<T>): seq<T> {
    if |src| >= |curr| then src else src + curr[|src|..]
  }

  function MergeSeats(curr: seq<seq<int>>, src: seq<seq<int>>): seq<seq<int>> {
    seq(if |src| >= |curr| then |src| else |curr|,
        i requires 0 <= i < |src| || 0 <= i < |curr| =>
          if i < |src| && i < |curr| then MergeSeq(curr[i], src[i])
          else if i < |src| then src[i] else curr[i])
  }

  function MergeState(c: StateDuty, s: StateDuty): StateDuty {
    StateDuty(Over(c.slashed, s.slashed), Over(c.status, s.status),
              Over(c.balance, s.balance), Over(c.effectiveBalance, s.effectiveBalance))
  }

  function MergeAtt(c: AttDuty, s: AttDuty): AttDuty {
    AttDuty(Over(c.happened, s.happened), Over(c.incDelay, s.incDelay),
            Over(c.source, s.source), Over(c.target, s.target), Over(c.head, s.head))
  }

  function MergeSync(c: SyncDuty, s: SyncDuty): SyncDuty {
    SyncDuty(Over(c.isSync, s.isSync), Over(c.percent, s.percent),
             if c.seats.Some? && s.seats.Some? then Some(MergeSeats(c.seats.value, s.seats.value))
             else Over(c.seats, s.seats))
  }

  function MergePropose(c: ProposeDuty, s: ProposeDuty): ProposeDuty {
    ProposeDuty(Over(c.isProposer, s.isProposer), Over(c.blockToPropose, s.blockToPropose),
                Over(c.blockProposed, s.blockProposed))
  }

  function MergeRewards(c: Rewards, s: Rewards): Rewards {
    Rewards(Over(c.earned, s.earned), Over(c.missed, s.missed), Over(c.penalty, s.penalty))
  }

  function Merge(c: Duty, s: Duty): Duty {
    Duty(MergeState(c.state, s.state), Over(c.withdrawn, s.withdrawn), MergePropose(c.propose, s.propose),
         MergeSync(c.sync, s.sync), MergeAtt(c.att, s.att),
         MergeRewards(c.attRewards, s.attRewards), MergeRewards(c.syncRewards, s.syncRewards))
  }

  function MergeMeta(m: EpochMeta, p: MetaPatch): EpochMeta {
    m.(state := p.state.GetOr(m.state),
       att := m.att.(attestations := p.attestations.GetOr(m.att.attestations)),
       sync := m.sync.(blocksToSync := if p.blocksToSync.Some? then MergeSeq(m.sync.blocksToSync, p.blocksToSync.value)
                                       else m.sync.blocksToSync))
  }

  /** Rewriting a validator's seats with one more seat appended really appends it, although arrays
      (and the arrays inside them) are merged index by index. */
  lemma AppendedSeatSurvivesMerge(seats: seq<seq<int>>, extra: seq<int>)
    ensures MergeSeats(seats, seats + [extra]) == seats + [extra]
  {
    assert forall i :: 0 <= i < |seats| ==> MergeSeq(seats[i], (seats + [extra])[i]) == seats[i];
  }

  /** Element by element: the source where it has one, the destination beyond. */
  lemma MergedAt(curr: seq<seq<int>>, src: seq<seq<int>>, i: nat, j: nat)
    ensures var m := MergeSeats(curr, src);
      && (i < |m| <==> i < |curr| || i < |src|)
      && (i < |m| ==> (j < |m[i]| <==> (i < |curr| && j < |curr[i]|) || (i < |src| && j < |src[i]|)))
      && (i < |m| && j < |m[i]| ==> m[i][j] == if i < |src| && j < |src[i]| then src[i][j] else curr[i][j])
  {
  }

  lemma MergeSeatsTwice(a: seq<seq<int>>, b: seq<seq<int>>, c: seq<seq<int>>)
    ensures MergeSeats(MergeSeats(a, b), c) == MergeSeats(a, MergeSeats(b, c))
  {
    var left, right := MergeSeats(MergeSeats(a, b), c), MergeSeats(a, MergeSeats(b, c));
    assert |left| == |right|;
    forall i | 0 <= i < |left|
      ensures left[i] == right[i]
    {
    }
  }

  /** Two patches in a row are one merged patch, and an empty patch is none: how a record is built up in several calls does
      not matter. */
  lemma PatchesCompose(d: Duty, p: Duty, q: Duty)
    ensures Merge(Merge(d, p), q) == Merge(d, Merge(p, q))
    ensures Merge(d, NO_DUTY) == d && Merge(NO_DUTY, d) == d
  {
    if d.sync.seats.Some? && p.sync.seats.Some? && q.sync.seats.Some? {
      MergeSeatsTwice(d.sync.seats.value, p.sync.seats.value, q.sync.seats.value);
    }
    hide MergeSeats;
  }

  // ---- the store as a value --------------------------------------------------------------------

  /** The slots of an epoch and of the one before it, whose blocks the round looks at. */
  predicate InWindow(epoch: int, slot: int) {
    (epoch - 1) * SLOTS_PER_EPOCH <= slot < (epoch + 1) * SLOTS_PER_EPOCH
  }

  function Window(epoch: int): set<int> {
    set s | (epoch - 1) * SLOTS_PER_EPOCH <= s < (epoch + 1) * SLOTS_PER_EPOCH && InWindow(epoch, s)
  }

  /** What an epoch holds before anything is written to it. */
  function InitInfo(epoch: int): EpochInfo {
    EpochInfo(map[],
              EpochMeta(StateMeta(0, 0, 0),
                        AttMeta(Participation(0, 0, 0),
                                map s | s in Window(epoch) :: [],
                                map s | s in Window(epoch) :: 0),
                        SyncMeta(0, [], map s | s in Window(epoch) :: 0)))
  }

  /** Every slot of the epoch and of the one before it starts with no list and no reward, and no other slot is known. */
  lemma InitialSlots(epoch: int, slot: int)
    ensures var info := InitInfo(epoch);
            var known := slot / SLOTS_PER_EPOCH == epoch - 1 || slot / SLOTS_PER_EPOCH == epoch;
      && info.summary == map[] && info.meta.sync.blocksToSync == []
      && (slot in info.meta.att.attestations <==> known) && (known ==> info.meta.att.attestations[slot] == [])
      && (slot in info.meta.att.rewards <==> known) && (known ==> info.meta.att.rewards[slot] == 0)
      && (slot in info.meta.sync.rewards <==> known) && (known ==> info.meta.sync.rewards[slot] == 0)
  {
    assert InWindow(epoch, slot) <==> slot / SLOTS_PER_EPOCH == epoch - 1 || slot / SLOTS_PER_EPOCH == epoch;
  }

  function InfoAt(st: Storage, epoch: int): EpochInfo {
    if epoch in st then st[epoch] else InitInfo(epoch)
  }

  /** Any access to an epoch initialises it. */
  function Touch(st: Storage, epoch: int): Storage {
    st[epoch := InfoAt(st, epoch)]
  }

  function DutyIn(summary: map<int, Duty>, valId: int): Duty {
    if valId in summary then summary[valId] else NO_DUTY
  }

  function DutiesAt(st: Storage, epoch: int): map<int, Duty> {
    InfoAt(st, epoch).summary
  }

  function DutyAt(st: Storage, epoch: int, valId: int): Duty {
    DutyIn(DutiesAt(st, epoch), valId)
  }

  function MetaAt(st: Storage, epoch: int): EpochMeta {
    InfoAt(st, epoch).meta
  }

  /** Replace the record of one validator. */
  function WithDuty(st: Storage, epoch: int, valId: int, d: Duty): Storage {
    var info := InfoAt(st, epoch);
    st[epoch := info.(summary := info.summary[valId := d])]
  }

  function WithMeta(st: Storage, epoch: int, m: EpochMeta): Storage {
    st[epoch := InfoAt(st, epoch).(meta := m)]
  }

  function PatchDuty(st: Storage, epoch: int, valId: int, patch: Duty): Storage {
    WithDuty(st, epoch, valId, Merge(DutyAt(st, epoch, valId), patch))
  }

  function PatchMeta(st: Storage, epoch: int, patch: MetaPatch): Storage {
    WithMeta(st, epoch, MergeMeta(MetaAt(st, epoch), patch))
  }

  /** The class every duty service writes through. */
  class SummaryService {
    var storage: Storage

    constructor ()
      ensures storage == map[]
    {
      storage := map[];
    }

    method Init(epoch: int)
      modifies this
      ensures storage == old(storage)[epoch := InitInfo(epoch)]
    {
      storage := storage[epoch := InitInfo(epoch)];
    }

    /** `epoch(..)`: every accessor goes through this lazy initialisation. */
    method Epoch(epoch: int) returns (info: EpochInfo)
      modifies this
      ensures storage == Touch(old(storage), epoch) && info == storage[epoch]
    {
      if epoch !in storage {
        Init(epoch);
      }
      info := storage[epoch];
      assert storage == Touch(old(storage), epoch);
    }

    method Get(epoch: int, valId: int) returns (d: Option<Duty>)
      modifies this
      ensures storage == Touch(old(storage), epoch)
      ensures d == if valId in storage[epoch].summary then Some(storage[epoch].summary[valId]) else None
    {
      var info := Epoch(epoch);
      d := if valId in info.summary then Some(info.summary[valId]) else None;
    }

    method Set(epoch: int, valId: int, patch: Duty)
      modifies this
      ensures storage == PatchDuty(old(storage), epoch, valId, patch)
    {
      var info := Epoch(epoch);
      var curr := if valId in info.summary then info.summary[valId] else NO_DUTY;
      storage := storage[epoch := info.(summary := info.summary[valId := Merge(curr, patch)])];
      assert storage == PatchDuty(old(storage), epoch, valId, patch);
    }

    method GetMeta(epoch: int) returns (m: EpochMeta)
      modifies this
      ensures storage == Touch(old(storage), epoch) && m == storage[epoch].meta
    {
      var info := Epoch(epoch);
      m := info.meta;
    }

    method SetMeta(epoch: int, patch: MetaPatch)
      modifies this
      ensures storage == PatchMeta(old(storage), epoch, patch)
    {
      var info := Epoch(epoch);
      storage := storage[epoch := info.(meta := MergeMeta(info.meta, patch))];
      assert storage == PatchMeta(old(storage), epoch, patch);
    }

    /** `getMeta` hands out the live object; this is what a caller's in-place update of it amounts to. */
    method UpdateMeta(epoch: int, m: EpochMeta)
      modifies this
      ensures storage == WithMeta(old(storage), epoch, m)
    {
      storage := WithMeta(storage, epoch, m);
    }

    /** The same for the live record that `get` hands out. */
    method Replace(epoch: int, valId: int, d: Duty)
      modifies this
      ensures storage == WithDuty(old(storage), epoch, valId, d)
    {
      storage := WithDuty(storage, epoch, valId, d);
    }

    method Clear()
      modifies this
      ensures storage == map[]
    {
      storage := map[];
    }
  }

  // ---- how the accessors see a write -----------------------------------------------------------

  lemma DutyAfterWrite(st: Storage, epoch: int, valId: int, d: Duty, e: int, v: int)
    ensures DutyAt(WithDuty(st, epoch, valId, d), e, v) == if (e, v) == (epoch, valId) then d else DutyAt(st, e, v)
    ensures MetaAt(WithDuty(st, epoch, valId, d), e) == MetaAt(st, e)
  {
  }

  lemma DutyAfterMeta(st: Storage, epoch: int, m: EpochMeta, e: int, v: int)
    ensures DutyAt(WithMeta(st, epoch, m), e, v) == DutyAt(st, e, v)
    ensures MetaAt(WithMeta(st, epoch, m), e) == if e == epoch then m else MetaAt(st, e)
  {
  }

  /** Reading an epoch is invisible to every later read. */
  lemma TouchIsInvisible(st: Storage, epoch: int, e: int, v: int)
    ensures DutyAt(Touch(st, epoch), e, v) == DutyAt(st, e, v)
    ensures MetaAt(Touch(st, epoch), e) == MetaAt(st, e)
  {
  }
}
