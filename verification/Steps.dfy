/** The uninterrupted steps of the duty checks, and which of them may be taken in either order. Between two `await`s a
    check runs alone, but the steps of different checks mix freely. */
module Steps {
  import opened Options
  import opened Summary
  import opened Attestation
  import AttestationConstants
  import opened ValidatorState
  import opened Constants
  import Sync
  import Propose
  import Withdrawals

  /** One uninterrupted step of a check, at most as large as the program makes it. */
  datatype Step =
    | StateOf(index: int, validator: Validator)
    | StateTotals(totals: StateMeta)
    | PrevMember(v: int)
    | CurrMember(v: int)
    | PrevCommittee(info: CommitteeInfo)
    | CurrCommittee(info: CommitteeInfo)
    | FoldOne(att: SlotAttestation)
    | Seat(v: int, synced: seq<int>, nBlocks: nat)
    | SyncBlocks(blocks: seq<int>)
    | ProposerAt(v: int, slot: int, proposed: bool)
    | Withdrawn(v: int, amount: nat)

  /** The sequential strands. Attestation has three: two pipelines read the committees side by side, and the fold
      starts when both have ended. */
  datatype Lane = StateLane | PrevLane | CurrLane | FoldLane | SyncLane | ProposeLane | WithdrawLane

  function LaneOf(s: Step): Lane {
    match s
    case StateOf(_, _) => StateLane
    case StateTotals(_) => StateLane
    case PrevMember(_) => PrevLane
    case CurrMember(_) => CurrLane
    case PrevCommittee(_) => PrevLane
    case CurrCommittee(_) => CurrLane
    case FoldOne(_) => FoldLane
    case Seat(_, _, _) => SyncLane
    case SyncBlocks(_) => SyncLane
    case ProposerAt(_, _, _) => ProposeLane
    case Withdrawn(_, _) => WithdrawLane
  }

  /** What the checks share: the store, and the map of committees that both pipelines fill and the fold reads. */
  datatype Shared = Shared(st: Storage, committees: Committees)

  /** What stays fixed during a round. */
  datatype Env = Env(epoch: int, canon: int -> Root, forks: Forks)

  predicate IsPlain(s: Step) {
    OnRecord(s) || OnMeta(s)
  }

  /** The steps that touch the store only, each by its own fields. */
  function ApplyPlain(st: Storage, epoch: int, s: Step): Storage
    requires IsPlain(s)
  {
    match s
    case StateOf(index, validator) => SetState(st, epoch, index, validator)
    case StateTotals(totals) => PatchMeta(st, epoch, MetaPatch(Some(totals), None, None))
    case PrevMember(v) => Expect(st, epoch - 1, v)
    case CurrMember(v) => Expect(st, epoch, v)
    case Seat(v, synced, nBlocks) => Sync.SyncSeat(st, epoch, v, synced, nBlocks)
    case SyncBlocks(blocks) => PatchMeta(st, epoch, MetaPatch(None, None, Some(blocks)))
    case ProposerAt(v, slot, proposed) => Propose.ProposeOne(st, epoch, v, slot, proposed)
    case Withdrawn(v, amount) => Withdrawals.Withdraw(st, epoch, v, amount)
  }

  function WithCommittee(committees: Committees, info: CommitteeInfo): Committees {
    committees[(info.index, info.slot) := info.validators]
  }

  /** An attestation whose committees are not in the map makes the program throw; it has no effect here. */
  function Fold(sh: Shared, env: Env, att: SlotAttestation): Shared {
    var agg := Resolve(att, sh.committees, env.canon, env.forks);
    if agg.Some? then sh.(st := RunAggregate(sh.st, env.epoch, agg.value)) else sh
  }

  function Apply(sh: Shared, env: Env, s: Step): Shared {
    match s
    case PrevCommittee(info) => sh.(committees := WithCommittee(sh.committees, info))
    case CurrCommittee(info) => sh.(committees := WithCommittee(sh.committees, info))
    case FoldOne(att) => Fold(sh, env, att)
    case _ => sh.(st := ApplyPlain(sh.st, env.epoch, s))
  }

  predicate IsMember(s: Step) {
    s.PrevMember? || s.CurrMember?
  }

  predicate IsCommittee(s: Step) {
    s.PrevCommittee? || s.CurrCommittee?
  }

  /** The steps the fold has to wait for. */
  predicate FeedsFold(s: Step) {
    IsMember(s) || IsCommittee(s)
  }

  /** Steps whose order is free. */
  predicate Independent(a: Step, b: Step) {
    LaneOf(a) != LaneOf(b) && !(a.FoldOne? && FeedsFold(b)) && !(b.FoldOne? && FeedsFold(a))
  }

  /** The node answers a request for the committees of an epoch with committees of that epoch's slots. */
  predicate InOwnEpoch(s: Step, epoch: int) {
    && (s.PrevCommittee? ==> s.info.slot / SLOTS_PER_EPOCH == epoch - 1)
    && (s.CurrCommittee? ==> s.info.slot / SLOTS_PER_EPOCH == epoch)
  }

  // ---- a step as an action on one record or on the metadata ------------------------------------

  predicate OnRecord(s: Step) {
    !s.FoldOne? && !s.StateTotals? && !s.SyncBlocks? && !IsCommittee(s)
  }

  predicate OnMeta(s: Step) {
    s.StateTotals? || s.SyncBlocks?
  }

  /** Where a record step writes. */
  function Place(s: Step, epoch: int): (int, int)
    requires OnRecord(s)
  {
    match s
    case StateOf(index, _) => (epoch, index)
    case PrevMember(v) => (epoch - 1, v)
    case CurrMember(v) => (epoch, v)
    case Seat(v, _, _) => (epoch, v)
    case ProposerAt(v, _, _) => (epoch, v)
    case Withdrawn(v, _) => (epoch, v)
  }

  /** What it makes of the record: only its own group of fields changes, and only by what that group held. */
  function Act(s: Step, epoch: int, d: Duty): Duty
    requires OnRecord(s)
  {
    match s
    case StateOf(_, validator) => d.(state := StatePatch(validator, epoch).state)
    case PrevMember(v) => d.(att := d.att.(happened := Some(false)))
    case CurrMember(v) => d.(att := d.att.(happened := Some(false)))
    case Seat(v, synced, nBlocks) => d.(sync := MergeSync(d.sync, Sync.SeatPatch(d.sync, synced, nBlocks)))
    case ProposerAt(v, slot, proposed) => d.(propose := ProposeDuty(Some(true), Some(slot), Some(proposed)))
    case Withdrawn(v, amount) => d.(withdrawn := Some(d.withdrawn.GetOr(0) + amount))
  }

  function ActMeta(s: Step, m: EpochMeta): EpochMeta
    requires OnMeta(s)
  {
    match s
    case StateTotals(totals) => m.(state := totals)
    case SyncBlocks(blocks) => m.(sync := m.sync.(blocksToSync := MergeSeq(m.sync.blocksToSync, blocks)))
  }

  function WriteRecord(st: Storage, epoch: int, s: Step): Storage
    requires OnRecord(s)
  {
    var (e, v) := Place(s, epoch);
    WithDuty(st, e, v, Act(s, epoch, DutyAt(st, e, v)))
  }

  lemma ApplyIsWrite(st: Storage, epoch: int, s: Step)
    requires IsPlain(s)
    ensures OnRecord(s) ==> ApplyPlain(st, epoch, s) == WriteRecord(st, epoch, s)
    ensures OnMeta(s) ==> ApplyPlain(st, epoch, s) == WithMeta(st, epoch, ActMeta(s, MetaAt(st, epoch)))
  {
    hide Merge, MergeSync, MergeSeq, Sync.SeatPatch, WithDuty, WithMeta, DutyAt, MetaAt, GetValidatorStatus;
    match s
    case Seat(v, synced, nBlocks) =>
      MergeSyncOnly(DutyAt(st, epoch, v), Sync.SeatPatch(DutyAt(st, epoch, v).sync, synced, nBlocks));
    case StateOf(index, validator) =>
      MergeStateOnly(DutyAt(st, epoch, index), StatePatch(validator, epoch).state);
    case PrevMember(v) =>
      MergeVoteOnly(DutyAt(st, epoch - 1, v));
    case CurrMember(v) =>
      MergeVoteOnly(DutyAt(st, epoch, v));
    case ProposerAt(v, slot, proposed) =>
      MergeProposalOnly(DutyAt(st, epoch, v), slot, proposed);
    case Withdrawn(v, amount) =>
      MergeWithdrawnOnly(DutyAt(st, epoch, v), DutyAt(st, epoch, v).withdrawn.GetOr(0) + amount);
    case _ =>
  }

  lemma MergeSyncOnly(d: Duty, s: SyncDuty)
    ensures Merge(d, NO_DUTY.(sync := s)) == d.(sync := MergeSync(d.sync, s))
  {
    hide MergeSync;
  }

  lemma MergeStateOnly(d: Duty, s: StateDuty)
    requires s.slashed.Some? && s.status.Some? && s.balance.Some? && s.effectiveBalance.Some?
    ensures Merge(d, NO_DUTY.(state := s)) == d.(state := s)
  {
  }

  lemma MergeVoteOnly(d: Duty)
    ensures Merge(d, NO_DUTY.(att := NO_ATT.(happened := Some(false)))) == d.(att := d.att.(happened := Some(false)))
  {
  }

  lemma MergeProposalOnly(d: Duty, slot: int, proposed: bool)
    ensures var p := ProposeDuty(Some(true), Some(slot), Some(proposed)); Merge(d, NO_DUTY.(propose := p)) == d.(propose := p)
  {
  }

  lemma MergeWithdrawnOnly(d: Duty, w: nat)
    ensures Merge(d, NO_DUTY.(withdrawn := Some(w))) == d.(withdrawn := Some(w))
  {
  }

  lemma ActsCommute(a: Step, b: Step, epoch: int, d: Duty)
    requires OnRecord(a) && OnRecord(b) && LaneOf(a) != LaneOf(b)
    ensures Act(a, epoch, Act(b, epoch, d)) == Act(b, epoch, Act(a, epoch, d))
  {
    hide MergeSync, Sync.SeatPatch, StatePatch;
  }

  // ---- writes to different places commute ------------------------------------------------------

  lemma WritesCommute(st: Storage, e: int, v: int, d: Duty, e': int, v': int, d': Duty)
    requires (e, v) != (e', v')
    ensures WithDuty(WithDuty(st, e, v, d), e', v', d') == WithDuty(WithDuty(st, e', v', d'), e, v, d)
  {
    if e == e' {
      var s := InfoAt(st, e).summary;
      assert s[v := d][v' := d'] == s[v' := d'][v := d];
    }
  }

  lemma WriteTwice(st: Storage, e: int, v: int, d: Duty, d': Duty)
    ensures WithDuty(WithDuty(st, e, v, d), e, v, d') == WithDuty(st, e, v, d')
  {
    var s := InfoAt(st, e).summary;
    assert s[v := d][v := d'] == s[v := d'];
  }

  lemma RecordAndMetaCommute(st: Storage, e: int, v: int, d: Duty, epoch: int, m: EpochMeta)
    ensures WithMeta(WithDuty(st, e, v, d), epoch, m) == WithDuty(WithMeta(st, epoch, m), e, v, d)
  {
  }

  lemma MetaTwice(st: Storage, epoch: int, m: EpochMeta, m': EpochMeta)
    ensures WithMeta(WithMeta(st, epoch, m), epoch, m') == WithMeta(st, epoch, m')
  {
  }

  lemma RecordStepsCommute(st: Storage, epoch: int, a: Step, b: Step)
    requires OnRecord(a) && OnRecord(b) && LaneOf(a) != LaneOf(b)
    ensures WriteRecord(WriteRecord(st, epoch, b), epoch, a) == WriteRecord(WriteRecord(st, epoch, a), epoch, b)
  {
    hide Act, Place, WithDuty, DutyAt;
    var (e, v) := Place(a, epoch);
    var (e', v') := Place(b, epoch);
    var d, d' := Act(a, epoch, DutyAt(st, e, v)), Act(b, epoch, DutyAt(st, e', v'));
    DutyAfterWrite(st, e', v', d', e, v);
    DutyAfterWrite(st, e, v, d, e', v');
    if (e, v) == (e', v') {
      ActsCommute(a, b, epoch, DutyAt(st, e, v));
      WriteTwice(st, e, v, d, Act(b, epoch, d));
      WriteTwice(st, e, v, d', Act(a, epoch, d'));
    } else {
      WritesCommute(st, e, v, d, e', v', d');
    }
  }

  lemma MetaStepsCommute(st: Storage, epoch: int, m: EpochMeta, a: Step, b: Step)
    requires OnMeta(a) && OnMeta(b) && LaneOf(a) != LaneOf(b)
    ensures ActMeta(a, ActMeta(b, m)) == ActMeta(b, ActMeta(a, m))
  {
    hide MergeSeq;
  }

  // ---- the fold against the other checks -------------------------------------------------------

  /** A record step of another check neither sees nor touches the attestation fields. */
  lemma BlindToVotes(s: Step, epoch: int, d: Duty, a: AttDuty)
    requires OnRecord(s) && !IsMember(s)
    ensures Act(s, epoch, d.(att := a)) == Act(s, epoch, d).(att := a)
    ensures Act(s, epoch, d).att == d.att
  {
    hide MergeSync, Sync.SeatPatch, StatePatch;
  }

  lemma IncludeIsWrite(w: World, te: int, v: int, incDelay: int, flags: AttestationConstants.Flags)
    ensures var d := DutyAt(w.st, te, v);
      IncludeOne(w, te, v, incDelay, flags)
      == World(WithDuty(w.st, te, v, d.(att := AttAfter(d.att, incDelay, flags))), CreditOne(w.credit, d.att, flags, v))
  {
    hide WithDuty, DutyAt, CreditOne;
  }

  lemma IncludeCommutes(w: World, te: int, v: int, incDelay: int, flags: AttestationConstants.Flags, epoch: int, s: Step)
    requires OnRecord(s) && !IsMember(s)
    ensures var w' := IncludeOne(w, te, v, incDelay, flags);
      IncludeOne(World(WriteRecord(w.st, epoch, s), w.credit), te, v, incDelay, flags) == World(WriteRecord(w'.st, epoch, s), w'.credit)
  {
    var (e, u) := Place(s, epoch);
    hide Act, Place, WithDuty, DutyAt, AttAfter, CreditOne, IncludeOne;
    IncludeIsWrite(w, te, v, incDelay, flags);
    IncludeIsWrite(World(WriteRecord(w.st, epoch, s), w.credit), te, v, incDelay, flags);
    var d, mine := DutyAt(w.st, te, v), Act(s, epoch, DutyAt(w.st, e, u));
    var voted := d.(att := AttAfter(d.att, incDelay, flags));
    DutyAfterWrite(w.st, e, u, mine, te, v);
    DutyAfterWrite(w.st, te, v, voted, e, u);
    if (e, u) == (te, v) {
      BlindToVotes(s, epoch, d, AttAfter(d.att, incDelay, flags));
      WriteTwice(w.st, e, u, mine, mine.(att := AttAfter(d.att, incDelay, flags)));
      WriteTwice(w.st, e, u, voted, Act(s, epoch, voted));
    } else {
      WritesCommute(w.st, e, u, mine, te, v, voted);
    }
  }

  lemma {:induction false} IncludeAllCommutes(w: World, te: int, vs: seq<int>, incDelay: int, flags: AttestationConstants.Flags, epoch: int, s: Step)
    requires OnRecord(s) && !IsMember(s)
    ensures var w' := IncludeAll(w, te, vs, incDelay, flags);
      IncludeAll(World(WriteRecord(w.st, epoch, s), w.credit), te, vs, incDelay, flags) == World(WriteRecord(w'.st, epoch, s), w'.credit)
  {
    hide IncludeOne, WriteRecord;
    if vs != [] {
      var init := vs[..|vs| - 1];
      IncludeAllCommutes(w, te, init, incDelay, flags, epoch, s);
      IncludeCommutes(IncludeAll(w, te, init, incDelay, flags), te, vs[|vs| - 1], incDelay, flags, epoch, s);
    }
  }

  lemma {:induction false} IncludeAllPastMeta(w: World, te: int, vs: seq<int>, incDelay: int, flags: AttestationConstants.Flags, epoch: int, m: EpochMeta)
    ensures var w' := IncludeAll(w, te, vs, incDelay, flags);
      IncludeAll(World(WithMeta(w.st, epoch, m), w.credit), te, vs, incDelay, flags) == World(WithMeta(w'.st, epoch, m), w'.credit)
  {
    hide IncludeOne, WithMeta, WithDuty, DutyAt, AttAfter, CreditOne;
    if vs != [] {
      var init, v := vs[..|vs| - 1], vs[|vs| - 1];
      IncludeAllPastMeta(w, te, init, incDelay, flags, epoch, m);
      var mid := IncludeAll(w, te, init, incDelay, flags);
      IncludeIsWrite(mid, te, v, incDelay, flags);
      IncludeIsWrite(World(WithMeta(mid.st, epoch, m), mid.credit), te, v, incDelay, flags);
      var d := DutyAt(mid.st, te, v);
      DutyAfterMeta(mid.st, epoch, m, te, v);
      RecordAndMetaCommute(mid.st, te, v, d.(att := AttAfter(d.att, incDelay, flags)), epoch, m);
    }
  }

  /** The metadata after the lists of an attestation were filed. */
  function Filed(m: EpochMeta, block: int, credit: Credit): EpochMeta {
    var lists := m.att.attestations;
    if block in lists then m.(att := m.att.(attestations := lists[block := lists[block] + [credit]])) else m
  }

  lemma CloseIsWrite(st: Storage, epoch: int, block: int, credit: Credit)
    ensures Close(st, epoch, block, credit)
         == if block in MetaAt(st, epoch).att.attestations then WithMeta(st, epoch, Filed(MetaAt(st, epoch), block, credit)) else st
  {
  }

  lemma FoldAndRecordCommute(st: Storage, epoch: int, agg: Aggregate, s: Step)
    requires OnRecord(s) && !IsMember(s)
    ensures RunAggregate(WriteRecord(st, epoch, s), epoch, agg) == WriteRecord(RunAggregate(st, epoch, agg), epoch, s)
  {
    var w := World(st, NO_CREDIT);
    IncludeAllCommutes(w, agg.targetEpoch, agg.members, agg.incDelay, agg.flags, epoch, s);
    var w' := IncludeAll(w, agg.targetEpoch, agg.members, agg.incDelay, agg.flags);
    var (e, v) := Place(s, epoch);
    var d := Act(s, epoch, DutyAt(w'.st, e, v));
    hide IncludeAll, Act, Place, Close, Filed, WithDuty, WithMeta, DutyAt, MetaAt;
    CloseIsWrite(w'.st, epoch, agg.block, w'.credit);
    CloseIsWrite(WithDuty(w'.st, e, v, d), epoch, agg.block, w'.credit);
    DutyAfterWrite(w'.st, e, v, d, epoch, v);
    var m := Filed(MetaAt(w'.st, epoch), agg.block, w'.credit);
    DutyAfterMeta(w'.st, epoch, m, e, v);
    RecordAndMetaCommute(w'.st, e, v, d, epoch, m);
  }

  lemma FoldAndMetaCommute(st: Storage, epoch: int, agg: Aggregate, s: Step)
    requires OnMeta(s)
    ensures var m, st' := MetaAt(st, epoch), RunAggregate(st, epoch, agg);
      RunAggregate(WithMeta(st, epoch, ActMeta(s, m)), epoch, agg) == WithMeta(st', epoch, ActMeta(s, MetaAt(st', epoch)))
  {
    var m := MetaAt(st, epoch);
    var w := World(st, NO_CREDIT);
    IncludeAllPastMeta(w, agg.targetEpoch, agg.members, agg.incDelay, agg.flags, epoch, ActMeta(s, m));
    IncludeAllKeepsMeta(w, agg.targetEpoch, agg.members, agg.incDelay, agg.flags, epoch);
    var w' := IncludeAll(w, agg.targetEpoch, agg.members, agg.incDelay, agg.flags);
    FiledCommutes(m, s, agg.block, w'.credit);
    hide IncludeAll, ActMeta, Close, Filed, WithMeta, MetaAt;
    CloseIsWrite(w'.st, epoch, agg.block, w'.credit);
    CloseIsWrite(WithMeta(w'.st, epoch, ActMeta(s, m)), epoch, agg.block, w'.credit);
    var filed := Filed(m, agg.block, w'.credit);
    DutyAfterMeta(w'.st, epoch, ActMeta(s, m), epoch, 0);
    DutyAfterMeta(w'.st, epoch, filed, epoch, 0);
    MetaTwice(w'.st, epoch, filed, ActMeta(s, filed));
    MetaTwice(w'.st, epoch, ActMeta(s, m), Filed(ActMeta(s, m), agg.block, w'.credit));
  }

  lemma FiledCommutes(m: EpochMeta, s: Step, block: int, credit: Credit)
    requires OnMeta(s)
    ensures Filed(ActMeta(s, m), block, credit) == ActMeta(s, Filed(m, block, credit))
    ensures ActMeta(s, m).att.attestations == m.att.attestations
  {
    hide MergeSeq;
  }

  // ---- any two independent steps ---------------------------------------------------------------

  lemma StepsCommute(sh: Shared, env: Env, a: Step, b: Step)
    requires Independent(a, b) && InOwnEpoch(a, env.epoch) && InOwnEpoch(b, env.epoch)
    ensures Apply(Apply(sh, env, a), env, b) == Apply(Apply(sh, env, b), env, a)
  {
    hide ApplyPlain, RunAggregate, Resolve;
    if a.FoldOne? {
      FoldAndPlain(sh, env, a.att, b);
    } else if b.FoldOne? {
      FoldAndPlain(sh, env, b.att, a);
    } else if IsPlain(a) && IsPlain(b) {
      PlainStepsCommute(sh.st, env.epoch, a, b);
    } else if IsCommittee(a) && IsCommittee(b) {
      var c := sh.committees;
      assert WithCommittee(WithCommittee(c, a.info), b.info) == WithCommittee(WithCommittee(c, b.info), a.info);
    }
  }

  lemma FoldAndPlain(sh: Shared, env: Env, att: SlotAttestation, s: Step)
    requires IsPlain(s) && !IsMember(s)
    ensures Fold(Apply(sh, env, s), env, att) == Apply(Fold(sh, env, att), env, s)
  {
    hide ApplyPlain, RunAggregate, Resolve;
    var agg := Resolve(att, sh.committees, env.canon, env.forks);
    if agg.Some? {
      FoldCommutes(sh.st, env.epoch, agg.value, s);
    }
  }

  lemma FoldCommutes(st: Storage, epoch: int, agg: Aggregate, s: Step)
    requires IsPlain(s) && !IsMember(s)
    ensures RunAggregate(ApplyPlain(st, epoch, s), epoch, agg) == ApplyPlain(RunAggregate(st, epoch, agg), epoch, s)
  {
    hide RunAggregate, ApplyPlain, WriteRecord, ActMeta, WithMeta;
    ApplyIsWrite(st, epoch, s);
    ApplyIsWrite(RunAggregate(st, epoch, agg), epoch, s);
    if OnRecord(s) {
      FoldAndRecordCommute(st, epoch, agg, s);
    } else {
      FoldAndMetaCommute(st, epoch, agg, s);
    }
  }

  lemma PlainStepsCommute(st: Storage, epoch: int, a: Step, b: Step)
    requires IsPlain(a) && IsPlain(b) && LaneOf(a) != LaneOf(b)
    ensures ApplyPlain(ApplyPlain(st, epoch, a), epoch, b) == ApplyPlain(ApplyPlain(st, epoch, b), epoch, a)
  {
    hide ApplyPlain;
    ApplyIsWrite(st, epoch, a);
    ApplyIsWrite(st, epoch, b);
    ApplyIsWrite(ApplyPlain(st, epoch, a), epoch, b);
    ApplyIsWrite(ApplyPlain(st, epoch, b), epoch, a);
    if OnRecord(a) && OnRecord(b) {
      hide WriteRecord;
      RecordStepsCommute(st, epoch, a, b);
    } else if OnRecord(a) {
      RecordAndMetaStepsCommute(st, epoch, a, b);
      hide WriteRecord, WithMeta, ActMeta;
    } else if OnRecord(b) {
      RecordAndMetaStepsCommute(st, epoch, b, a);
      hide WriteRecord, WithMeta, ActMeta;
    } else {
      var m := MetaAt(st, epoch);
      MetaStepsCommute(st, epoch, m, a, b);
      DutyAfterMeta(st, epoch, ActMeta(a, m), epoch, 0);
      DutyAfterMeta(st, epoch, ActMeta(b, m), epoch, 0);
      MetaTwice(st, epoch, ActMeta(a, m), ActMeta(b, ActMeta(a, m)));
      MetaTwice(st, epoch, ActMeta(b, m), ActMeta(a, ActMeta(b, m)));
      hide WithMeta, ActMeta, MetaAt;
    }
  }

  lemma RecordAndMetaStepsCommute(st: Storage, epoch: int, r: Step, s: Step)
    requires OnRecord(r) && OnMeta(s)
    ensures var st1, st2 := WriteRecord(st, epoch, r), WithMeta(st, epoch, ActMeta(s, MetaAt(st, epoch)));
      WithMeta(st1, epoch, ActMeta(s, MetaAt(st1, epoch))) == WriteRecord(st2, epoch, r)
  {
    var (e, v) := Place(r, epoch);
    var d, m := Act(r, epoch, DutyAt(st, e, v)), ActMeta(s, MetaAt(st, epoch));
    hide Act, ActMeta, Place, WithDuty, WithMeta, DutyAt, MetaAt;
    DutyAfterWrite(st, e, v, d, epoch, v);
    DutyAfterMeta(st, epoch, m, e, v);
    RecordAndMetaCommute(st, e, v, d, epoch, m);
  }
}
