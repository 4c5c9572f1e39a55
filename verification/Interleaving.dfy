/** The five duty checks run concurrently on one event loop. This module shows that the mixing of their steps cannot be
    observed. */
module Interleaving {
  import opened Constants
  import opened Options
  import opened Summary
  import opened Attestation
  import opened ValidatorState
  import opened Steps
  import Sync
  import Propose
  import Withdrawals

  function Run(sh: Shared, env: Env, tr: seq<Step>): Shared {
    if tr == [] then sh else Apply(Run(sh, env, tr[..|tr| - 1]), env, tr[|tr| - 1])
  }

  /** The steps of one strand, in the order they were taken. */
  function Only(tr: seq<Step>, lane: Lane): seq<Step> {
    if tr == [] then []
    else Only(tr[..|tr| - 1], lane) + if LaneOf(tr[|tr| - 1]) == lane then [tr[|tr| - 1]] else []
  }

  predicate FoldAfterCommittees(tr: seq<Step>) {
    forall i, j :: 0 <= i < j < |tr| && tr[i].FoldOne? ==> !FeedsFold(tr[j])
  }

  predicate AllInOwnEpoch(tr: seq<Step>, epoch: int) {
    forall i :: 0 <= i < |tr| ==> InOwnEpoch(tr[i], epoch)
  }

  // ---- whole runs ------------------------------------------------------------------------------

  lemma {:induction false} RunConcat(sh: Shared, env: Env, a: seq<Step>, b: seq<Step>)
    ensures Run(sh, env, a + b) == Run(Run(sh, env, a), env, b)
  {
    hide Apply;
    if b == [] {
      assert a + b == a;
    } else {
      var init := b[..|b| - 1];
      RunConcat(sh, env, a, init);
      assert (a + b)[..|a + b| - 1] == a + init;
    }
  }

  lemma {:induction false} OnlyConcat(a: seq<Step>, b: seq<Step>, lane: Lane)
    ensures Only(a + b, lane) == Only(a, lane) + Only(b, lane)
  {
    if b == [] {
      assert a + b == a;
    } else {
      var init := b[..|b| - 1];
      OnlyConcat(a, init, lane);
      assert (a + b)[..|a + b| - 1] == a + init;
    }
  }

  /** A step may be taken before any steps it is independent of. */
  lemma {:induction false} TakenEarlier(sh: Shared, env: Env, later: seq<Step>, s: Step)
    requires forall i :: 0 <= i < |later| ==> Independent(s, later[i])
    requires InOwnEpoch(s, env.epoch) && AllInOwnEpoch(later, env.epoch)
    ensures Apply(Run(sh, env, later), env, s) == Run(Apply(sh, env, s), env, later)
  {
    if later != [] {
      var init, last := later[..|later| - 1], later[|later| - 1];
      TakenEarlier(sh, env, init, s);
      StepsCommute(Run(sh, env, init), env, s, last);
      hide Apply;
    }
  }

  /** Where a strand took its last step. */
  lemma {:induction false} LastOf(tr: seq<Step>, lane: Lane) returns (k: nat)
    requires Only(tr, lane) != []
    ensures k < |tr| && LaneOf(tr[k]) == lane && tr[k] == Only(tr, lane)[|Only(tr, lane)| - 1]
    ensures forall i :: k < i < |tr| ==> LaneOf(tr[i]) != lane
  {
    if LaneOf(tr[|tr| - 1]) == lane {
      k := |tr| - 1;
    } else {
      k := LastOf(tr[..|tr| - 1], lane);
    }
  }

  lemma {:induction false} InItsLane(tr: seq<Step>, k: nat)
    requires k < |tr|
    ensures tr[k] in Only(tr, LaneOf(tr[k]))
  {
    if k < |tr| - 1 {
      InItsLane(tr[..|tr| - 1], k);
    }
  }

  lemma {:induction false} StepInRun(tr: seq<Step>, lane: Lane, s: Step)
    requires s in Only(tr, lane)
    ensures s in tr && LaneOf(s) == lane
  {
    if s != tr[|tr| - 1] || LaneOf(s) != lane {
      StepInRun(tr[..|tr| - 1], lane, s);
      assert forall x :: x in tr[..|tr| - 1] ==> x in tr;
    }
  }

  /** Taking one step out of a run takes it out of its strand and of no other. */
  lemma OnlyWithout(before: seq<Step>, s: Step, after: seq<Step>, lane: Lane)
    requires forall i :: 0 <= i < |after| ==> LaneOf(after[i]) != LaneOf(s)
    ensures Only((before + [s]) + after, lane) == Only(before + after, lane) + if LaneOf(s) == lane then [s] else []
  {
    OnlyConcat(before + [s], after, lane);
    OnlyConcat(before, [s], lane);
    OnlyConcat(before, after, lane);
    OnlyOne(s, lane);
    hide Only;
    if LaneOf(s) == lane {
      OnlyNone(after, lane);
    }
  }

  lemma OnlyOne(s: Step, lane: Lane)
    ensures Only([s], lane) == if LaneOf(s) == lane then [s] else []
  {
    assert [s][..0] == [];
  }

  lemma {:induction false} OnlyNone(tr: seq<Step>, lane: Lane)
    requires forall i :: 0 <= i < |tr| ==> LaneOf(tr[i]) != lane
    ensures Only(tr, lane) == []
  {
    if tr != [] {
      OnlyNone(tr[..|tr| - 1], lane);
    }
  }

  ghost predicate SameStrands(a: seq<Step>, b: seq<Step>) {
    forall lane :: Only(a, lane) == Only(b, lane)
  }

  /** The steps after the last one of a strand, in one run, are independent of it if it ends another run of the
      same strands. */
  lemma RestIsIndependent(init: seq<Step>, s: Step, tr: seq<Step>, k: nat)
    requires FoldAfterCommittees(init + [s]) && FoldAfterCommittees(tr) && SameStrands(init + [s], tr)
    requires k < |tr| && tr[k] == s && forall i :: k < i < |tr| ==> LaneOf(tr[i]) != LaneOf(s)
    ensures forall i :: k < i < |tr| ==> Independent(s, tr[i])
  {
    MemberEndsNoFold(init, s);
    forall i | k < i < |tr|
      ensures Independent(s, tr[i])
    {
      if FeedsFold(s) && tr[i].FoldOne? {
        InItsLane(tr, i);
        StepInRun(init + [s], FoldLane, tr[i]);
      }
    }
  }

  lemma MemberEndsNoFold(init: seq<Step>, s: Step)
    requires FoldAfterCommittees(init + [s])
    ensures FeedsFold(s) ==> forall x :: x in init + [s] ==> !x.FoldOne?
  {
    var tr := init + [s];
    assert tr[|init|] == s;
    forall x | x in tr && FeedsFold(s)
      ensures !x.FoldOne?
    {
      var j :| 0 <= j < |tr| && tr[j] == x;
    }
  }

  lemma FoldAfterCommitteesWithout(tr: seq<Step>, k: nat)
    requires FoldAfterCommittees(tr) && k < |tr|
    ensures FoldAfterCommittees(tr[..k] + tr[k + 1..])
  {
    var rest := tr[..k] + tr[k + 1..];
    assert forall i :: 0 <= i < |rest| ==> rest[i] == tr[if i < k then i else i + 1];
  }

  /** Two runs that take the same steps strand by strand end in the same store, however they mix the strands. */
  lemma {:induction false} SameStrandsSameStore(sh: Shared, env: Env, a: seq<Step>, b: seq<Step>)
    requires FoldAfterCommittees(a) && FoldAfterCommittees(b) && SameStrands(a, b)
    requires AllInOwnEpoch(a, env.epoch) && AllInOwnEpoch(b, env.epoch)
    ensures Run(sh, env, a) == Run(sh, env, b)
    decreases |a|
  {
    hide Apply, LaneOf;
    if a == [] {
      if b != [] {
        InItsLane(b, 0);
      }
    } else {
      var init, s := a[..|a| - 1], a[|a| - 1];
      assert a == init + [s];
      InItsLane(a, |a| - 1);
      assert Only(a, LaneOf(s)) == Only(b, LaneOf(s));
      var k := LastOf(b, LaneOf(s));
      var rest := b[..k] + b[k + 1..];
      RestIsIndependent(init, s, b, k);
      FoldAfterCommitteesWithout(a, |a| - 1);
      assert a[..|a| - 1] + a[|a|..] == init;
      FoldAfterCommitteesWithout(b, k);
      StrandsWithout(init, s, b, k);
      SameStrandsSameStore(sh, env, init, rest);
      RunWithout(sh, env, b, k);
    }
  }

  lemma CancelSuffix(a: seq<Step>, b: seq<Step>, suffix: seq<Step>)
    requires a + suffix == b + suffix
    ensures a == b
  {
    assert |a + suffix| == |b + suffix|;
    assert a == (a + suffix)[..|a|] && b == (b + suffix)[..|b|];
  }

  lemma StrandsWithout(init: seq<Step>, s: Step, b: seq<Step>, k: nat)
    requires SameStrands(init + [s], b) && k < |b| && b[k] == s && forall i :: k < i < |b| ==> LaneOf(b[i]) != LaneOf(s)
    ensures SameStrands(init, b[..k] + b[k + 1..])
  {
    var before, after := b[..k], b[k + 1..];
    assert (before + [s]) + after == b;
    forall lane
      ensures Only(init, lane) == Only(before + after, lane)
    {
      hide Only, LaneOf;
      OnlyWithout(before, s, after, lane);
      OnlyWithout(init, s, [], lane);
      assert (init + [s]) + [] == init + [s] && init + [] == init;
      assert Only(init + [s], lane) == Only(b, lane);
      CancelSuffix(Only(init, lane), Only(before + after, lane), if LaneOf(s) == lane then [s] else []);
    }
  }

  lemma RunWithout(sh: Shared, env: Env, tr: seq<Step>, k: nat)
    requires k < |tr| && forall i :: k < i < |tr| ==> Independent(tr[k], tr[i])
    requires AllInOwnEpoch(tr, env.epoch)
    ensures Run(sh, env, tr) == Apply(Run(sh, env, tr[..k] + tr[k + 1..]), env, tr[k])
  {
    hide Apply, Independent;
    RunConcat(sh, env, tr[..k], tr[k + 1..]);
    RunConcat(sh, env, tr[..k + 1], tr[k + 1..]);
    assert tr[..k + 1] + tr[k + 1..] == tr;
    assert tr[..k + 1][..k] == tr[..k];
    TakenEarlier(Run(sh, env, tr[..k]), env, tr[k + 1..], tr[k]);
  }

  // ---- the five checks -------------------------------------------------------------------------

  /** What the checks of one round work on, as fetched from the node. A slot without a block is in no map. */
  datatype Inputs = Inputs(validators: seq<Validator>, prev: seq<CommitteeInfo>, curr: seq<CommitteeInfo>,
                           attestations: map<int, seq<BlockAttestation>>, committee: seq<int>, syncBits: map<int, seq<bool>>,
                           duties: seq<Propose.ProposerDuty>, headers: set<int>,
                           withdrawals: seq<Option<seq<Withdrawals.Withdrawal>>>)

  /** The attestations the fold processes, in order. */
  function Attestations(t: Inputs, env: Env): seq<SlotAttestation> {
    RelevantOf(env.epoch, Collected(t.attestations, (env.epoch - 1) * SLOTS_PER_EPOCH, (env.epoch + 1) * SLOTS_PER_EPOCH, env.forks))
  }

  function CommitteesFor(t: Inputs): Committees {
    CommitteeMap(t.prev, t.curr)
  }

  predicate AllOf(infos: seq<CommitteeInfo>, epoch: int) {
    forall i :: 0 <= i < |infos| ==> infos[i].slot / SLOTS_PER_EPOCH == epoch
  }

  /** A round in which no check fails, on committees of the epochs they were asked for. */
  predicate Succeeds(t: Inputs, env: Env) {
    && ActiveIncrements(t.validators, env.epoch) > 0
    && AllResolve(Attestations(t, env), CommitteesFor(t), env.canon, env.forks)
    && AllOf(t.prev, env.epoch - 1) && AllOf(t.curr, env.epoch)
  }

  function AggregatesFor(t: Inputs, env: Env): seq<Aggregate>
    requires Succeeds(t, env)
  {
    Aggregates(Attestations(t, env), CommitteesFor(t), env.canon, env.forks)
  }

  function StatesOf(vs: seq<Validator>): seq<Step> {
    if vs == [] then [] else StatesOf(vs[..|vs| - 1]) + [StateOf(|vs| - 1, vs[|vs| - 1])]
  }

  function MembersOf(vs: seq<int>, prev: bool): seq<Step> {
    if vs == [] then []
    else MembersOf(vs[..|vs| - 1], prev) + [if prev then PrevMember(vs[|vs| - 1]) else CurrMember(vs[|vs| - 1])]
  }

  /** A committee's members are marked first, then the committee is entered in the map. */
  function CommitteesSteps(infos: seq<CommitteeInfo>, prev: bool): seq<Step> {
    if infos == [] then []
    else
      var last := infos[|infos| - 1];
      CommitteesSteps(infos[..|infos| - 1], prev) + MembersOf(last.validators, prev) + [if prev then PrevCommittee(last) else CurrCommittee(last)]
  }

  function FoldsOf(atts: seq<SlotAttestation>): seq<Step> {
    if atts == [] then [] else FoldsOf(atts[..|atts| - 1]) + [FoldOne(atts[|atts| - 1])]
  }

  function SeatsOf(committee: seq<int>, blocks: seq<Sync.BlockBits>): seq<Step> {
    if committee == [] then []
    else
      var last := |committee| - 1;
      SeatsOf(committee[..last], blocks) + [Seat(committee[last], Sync.Synced(blocks, last), |blocks|)]
  }

  function ProposersOf(duties: seq<Propose.ProposerDuty>, headers: set<int>): seq<Step> {
    if duties == [] then []
    else
      var last := duties[|duties| - 1];
      ProposersOf(duties[..|duties| - 1], headers) + [ProposerAt(last.validator, last.slot, last.slot in headers)]
  }

  function WithdrawalsOf(ws: seq<Withdrawals.Withdrawal>): seq<Step> {
    if ws == [] then []
    else WithdrawalsOf(ws[..|ws| - 1]) + [Withdrawn(ws[|ws| - 1].validator, ws[|ws| - 1].amount)]
  }

  /** What each strand does, in its own order. */
  ghost function StrandOf(t: Inputs, env: Env, lane: Lane): seq<Step>
    requires Succeeds(t, env)
  {
    match lane
    case StateLane =>
      var increments := ActiveIncrements(t.validators, env.epoch);
      StatesOf(t.validators) + [StateTotals(StateMeta(ActiveCount(t.validators, env.epoch), increments, BaseReward(increments)))]
    case PrevLane => CommitteesSteps(t.prev, true)
    case CurrLane => CommitteesSteps(t.curr, false)
    case FoldLane => FoldsOf(Attestations(t, env))
    case SyncLane =>
      var blocks := Sync.BlocksOf(env.epoch, t.syncBits);
      SeatsOf(t.committee, blocks) + [SyncBlocks(Sync.Slots(blocks))]
    case ProposeLane => ProposersOf(t.duties, t.headers)
    case WithdrawLane => WithdrawalsOf(Withdrawals.InBlocks(t.withdrawals))
  }

  /** A run of the event loop: every strand takes its steps in order, mixed in any way, the fold starting after
      both committee pipelines. */
  ghost predicate Interleaves(tr: seq<Step>, t: Inputs, env: Env)
    requires Succeeds(t, env)
  {
    FoldAfterCommittees(tr) && forall lane :: Only(tr, lane) == StrandOf(t, env, lane)
  }

  /** The checks run one after the other. */
  ghost function OneAfterAnother(st: Storage, env: Env, t: Inputs): Storage
    requires Succeeds(t, env)
  {
    var epoch := env.epoch;
    var st1 := StateChecked(st, epoch, t.validators);
    var st2 := Checked(st1, epoch, AggregatesFor(t, env), t.prev, t.curr);
    var st3 := Sync.SyncChecked(st2, epoch, t.committee, Sync.BlocksOf(epoch, t.syncBits));
    var st4 := Propose.Proposed(st3, epoch, t.duties, t.headers);
    Withdrawals.WithdrawAll(st4, epoch, Withdrawals.InBlocks(t.withdrawals))
  }

  predicate AllIn(tr: seq<Step>, lane: Lane) {
    forall i :: 0 <= i < |tr| ==> LaneOf(tr[i]) == lane
  }

  lemma RunSnoc(sh: Shared, env: Env, tr: seq<Step>, s: Step)
    ensures Run(sh, env, tr + [s]) == Apply(Run(sh, env, tr), env, s)
  {
    assert (tr + [s])[..|tr|] == tr;
    hide Apply;
  }

  /** A strand grows by one step. */
  lemma Extend(sh: Shared, env: Env, tr: seq<Step>, s: Step, lane: Lane)
    requires AllIn(tr, lane) && LaneOf(s) == lane && AllInOwnEpoch(tr, env.epoch) && InOwnEpoch(s, env.epoch)
    ensures Run(sh, env, tr + [s]) == Apply(Run(sh, env, tr), env, s)
    ensures AllIn(tr + [s], lane) && AllInOwnEpoch(tr + [s], env.epoch)
  {
    RunSnoc(sh, env, tr, s);
    hide Apply, Run;
  }

  /** A strand and what it amounts to. */
  ghost predicate Does(sh: Shared, env: Env, tr: seq<Step>, lane: Lane, sh': Shared) {
    Run(sh, env, tr) == sh' && AllIn(tr, lane) && AllInOwnEpoch(tr, env.epoch)
  }

  lemma {:induction false} StatesRun(sh: Shared, env: Env, vs: seq<Validator>)
    ensures Does(sh, env, StatesOf(vs), StateLane, sh.(st := SetStates(sh.st, env.epoch, vs)))
  {
    hide SetState;
    if vs != [] {
      hide AllIn, AllInOwnEpoch, Run;
      StatesRun(sh, env, vs[..|vs| - 1]);
      Extend(sh, env, StatesOf(vs[..|vs| - 1]), StateOf(|vs| - 1, vs[|vs| - 1]), StateLane);
    }
  }

  lemma {:induction false} MembersRun(sh: Shared, env: Env, vs: seq<int>, prev: bool)
    ensures Does(sh, env, MembersOf(vs, prev), if prev then PrevLane else CurrLane,
                 sh.(st := ExpectAll(sh.st, if prev then env.epoch - 1 else env.epoch, vs)))
  {
    hide Expect;
    if vs != [] {
      hide AllIn, AllInOwnEpoch, Run;
      var last := vs[|vs| - 1];
      MembersRun(sh, env, vs[..|vs| - 1], prev);
      if prev {
        Extend(sh, env, MembersOf(vs[..|vs| - 1], prev), PrevMember(last), PrevLane);
      } else {
        Extend(sh, env, MembersOf(vs[..|vs| - 1], prev), CurrMember(last), CurrLane);
      }
    }
  }

  lemma Joined(sh: Shared, env: Env, a: seq<Step>, b: seq<Step>, lane: Lane, mid: Shared, sh': Shared)
    requires Does(sh, env, a, lane, mid) && Does(mid, env, b, lane, sh')
    ensures Does(sh, env, a + b, lane, sh')
  {
    RunConcat(sh, env, a, b);
    hide Run;
  }

  lemma {:induction false} CommitteesRun(sh: Shared, env: Env, infos: seq<CommitteeInfo>, prev: bool)
    requires AllOf(infos, if prev then env.epoch - 1 else env.epoch)
    ensures Does(sh, env, CommitteesSteps(infos, prev), if prev then PrevLane else CurrLane,
                 Shared(ExpectCommittees(sh.st, if prev then env.epoch - 1 else env.epoch, infos), AddCommittees(sh.committees, infos)))
  {
    if infos != [] {
      var init, last := infos[..|infos| - 1], infos[|infos| - 1];
      CommitteesRun(sh, env, init, prev);
      CommitteeRun(sh, env, infos, prev);
    }
  }

  lemma CommitteeRun(sh: Shared, env: Env, infos: seq<CommitteeInfo>, prev: bool)
    requires infos != [] && AllOf(infos, if prev then env.epoch - 1 else env.epoch)
    requires var init := infos[..|infos| - 1];
      Does(sh, env, CommitteesSteps(init, prev), if prev then PrevLane else CurrLane,
           Shared(ExpectCommittees(sh.st, if prev then env.epoch - 1 else env.epoch, init), AddCommittees(sh.committees, init)))
    ensures Does(sh, env, CommitteesSteps(infos, prev), if prev then PrevLane else CurrLane,
                 Shared(ExpectCommittees(sh.st, if prev then env.epoch - 1 else env.epoch, infos), AddCommittees(sh.committees, infos)))
  {
    var init, last := infos[..|infos| - 1], infos[|infos| - 1];
    var e, lane := if prev then env.epoch - 1 else env.epoch, if prev then PrevLane else CurrLane;
    var mid := Shared(ExpectCommittees(sh.st, e, init), AddCommittees(sh.committees, init));
    hide MembersOf, ExpectAll;
    MembersRun(mid, env, last.validators, prev);
    var more := mid.(st := ExpectAll(mid.st, e, last.validators));
    hide Does;
    Joined(sh, env, CommitteesSteps(init, prev), MembersOf(last.validators, prev), lane, mid, more);
    var steps := CommitteesSteps(init, prev) + MembersOf(last.validators, prev);
    var enter := if prev then PrevCommittee(last) else CurrCommittee(last);
    Entered(sh, env, steps, enter, lane, more);
  }

  lemma Entered(sh: Shared, env: Env, steps: seq<Step>, enter: Step, lane: Lane, mid: Shared)
    requires Does(sh, env, steps, lane, mid) && IsCommittee(enter) && LaneOf(enter) == lane && InOwnEpoch(enter, env.epoch)
    ensures Does(sh, env, steps + [enter], lane, mid.(committees := WithCommittee(mid.committees, enter.info)))
  {
    Extend(sh, env, steps, enter, lane);
    hide Run, AllIn, AllInOwnEpoch;
  }

  lemma {:induction false} FoldsRun(sh: Shared, env: Env, atts: seq<SlotAttestation>)
    requires AllResolve(atts, sh.committees, env.canon, env.forks)
    ensures Does(sh, env, FoldsOf(atts), FoldLane,
                 sh.(st := RunAll(sh.st, env.epoch, Aggregates(atts, sh.committees, env.canon, env.forks))))
  {
    hide RunAggregate, Resolve;
    if atts != [] {
      var init, last := atts[..|atts| - 1], atts[|atts| - 1];
      assert atts == init + [last];
      hide AllIn, AllInOwnEpoch, Run;
      FoldsRun(sh, env, init);
      Extend(sh, env, FoldsOf(init), FoldOne(last), FoldLane);
      RunStep(sh.st, env.epoch, init, last, sh.committees, env.canon, env.forks);
      hide RunAll, Aggregates;
    }
  }

  lemma {:induction false} SeatsRun(sh: Shared, env: Env, committee: seq<int>, blocks: seq<Sync.BlockBits>)
    ensures Does(sh, env, SeatsOf(committee, blocks), SyncLane, sh.(st := Sync.SyncSeats(sh.st, env.epoch, committee, blocks)))
  {
    hide Sync.SyncSeat, Sync.Synced;
    if committee != [] {
      hide AllIn, AllInOwnEpoch, Run;
      var last := |committee| - 1;
      SeatsRun(sh, env, committee[..last], blocks);
      Extend(sh, env, SeatsOf(committee[..last], blocks), Seat(committee[last], Sync.Synced(blocks, last), |blocks|), SyncLane);
    }
  }

  lemma {:induction false} ProposersRun(sh: Shared, env: Env, duties: seq<Propose.ProposerDuty>, headers: set<int>)
    ensures Does(sh, env, ProposersOf(duties, headers), ProposeLane, sh.(st := Propose.Proposed(sh.st, env.epoch, duties, headers)))
  {
    hide Propose.ProposeOne;
    if duties != [] {
      hide AllIn, AllInOwnEpoch, Run;
      var init, last := duties[..|duties| - 1], duties[|duties| - 1];
      ProposersRun(sh, env, init, headers);
      Extend(sh, env, ProposersOf(init, headers), ProposerAt(last.validator, last.slot, last.slot in headers), ProposeLane);
    }
  }

  lemma {:induction false} WithdrawalsRun(sh: Shared, env: Env, ws: seq<Withdrawals.Withdrawal>)
    ensures Does(sh, env, WithdrawalsOf(ws), WithdrawLane, sh.(st := Withdrawals.WithdrawAll(sh.st, env.epoch, ws)))
  {
    hide Withdrawals.Withdraw;
    if ws != [] {
      hide AllIn, AllInOwnEpoch, Run;
      var init, last := ws[..|ws| - 1], ws[|ws| - 1];
      WithdrawalsRun(sh, env, init);
      Extend(sh, env, WithdrawalsOf(init), Withdrawn(last.validator, last.amount), WithdrawLane);
    }
  }

  lemma StateStrandRun(sh: Shared, env: Env, t: Inputs)
    requires Succeeds(t, env)
    ensures Does(sh, env, StrandOf(t, env, StateLane), StateLane, sh.(st := StateChecked(sh.st, env.epoch, t.validators)))
  {
    hide AllIn, AllInOwnEpoch, Run, StatesOf, SetStates, BaseReward, ActiveCount, ActiveIncrements, PatchMeta;
    StatesRun(sh, env, t.validators);
    var increments := ActiveIncrements(t.validators, env.epoch);
    Extend(sh, env, StatesOf(t.validators),
           StateTotals(StateMeta(ActiveCount(t.validators, env.epoch), increments, BaseReward(increments))), StateLane);
  }

  lemma SyncStrandRun(sh: Shared, env: Env, t: Inputs)
    requires Succeeds(t, env)
    ensures Does(sh, env, StrandOf(t, env, SyncLane), SyncLane,
                 sh.(st := Sync.SyncChecked(sh.st, env.epoch, t.committee, Sync.BlocksOf(env.epoch, t.syncBits))))
  {
    hide AllIn, AllInOwnEpoch, Run, SeatsOf, Sync.SyncSeats, Sync.BlocksOf, PatchMeta, Succeeds;
    var blocks := Sync.BlocksOf(env.epoch, t.syncBits);
    SeatsRun(sh, env, t.committee, blocks);
    Extend(sh, env, SeatsOf(t.committee, blocks), SyncBlocks(Sync.Slots(blocks)), SyncLane);
  }

  lemma FoldStrandRun(sh: Shared, env: Env, t: Inputs)
    requires Succeeds(t, env) && sh.committees == CommitteesFor(t)
    ensures Does(sh, env, StrandOf(t, env, FoldLane), FoldLane, sh.(st := RunAll(sh.st, env.epoch, AggregatesFor(t, env))))
  {
    hide Does, RunAll, FoldsOf, Attestations, CommitteesFor, AllResolve;
    FoldsRun(sh, env, Attestations(t, env));
  }

  lemma {:induction false} OnlyOfLane(tr: seq<Step>, own: Lane, lane: Lane)
    requires AllIn(tr, own)
    ensures Only(tr, lane) == if lane == own then tr else []
  {
    if tr != [] {
      OnlyOfLane(tr[..|tr| - 1], own, lane);
    }
  }

  ghost function FirstHalf(t: Inputs, env: Env): seq<Step>
    requires Succeeds(t, env)
  {
    StrandOf(t, env, StateLane) + StrandOf(t, env, PrevLane) + StrandOf(t, env, CurrLane)
  }

  ghost function SecondHalf(t: Inputs, env: Env): seq<Step>
    requires Succeeds(t, env)
  {
    StrandOf(t, env, FoldLane) + StrandOf(t, env, SyncLane) + StrandOf(t, env, ProposeLane) + StrandOf(t, env, WithdrawLane)
  }

  lemma StrandsAreInLane(t: Inputs, env: Env, lane: Lane)
    requires Succeeds(t, env)
    ensures AllIn(StrandOf(t, env, lane), lane) && AllInOwnEpoch(StrandOf(t, env, lane), env.epoch)
  {
    var sh := Shared(map[], CommitteesFor(t));
    hide Run, AllIn, AllInOwnEpoch, CommitteesFor, Attestations, AllResolve, Sync.BlocksOf, Withdrawals.InBlocks;
    hide StatesOf, CommitteesSteps, FoldsOf, SeatsOf, ProposersOf, WithdrawalsOf, ActiveIncrements, BaseReward, ActiveCount;
    hide SetStates, ExpectCommittees, RunAll, Sync.SyncSeats, Propose.Proposed, Withdrawals.WithdrawAll;
    match lane
    case StateLane => StateStrandRun(sh, env, t);
    case PrevLane => CommitteesRun(sh, env, t.prev, true);
    case CurrLane => CommitteesRun(sh, env, t.curr, false);
    case FoldLane => FoldStrandRun(sh, env, t);
    case SyncLane => SyncStrandRun(sh, env, t);
    case ProposeLane => ProposersRun(sh, env, t.duties, t.headers);
    case WithdrawLane => WithdrawalsRun(sh, env, Withdrawals.InBlocks(t.withdrawals));
  }

  lemma OrderlyRun(t: Inputs, env: Env)
    requires Succeeds(t, env)
    ensures Interleaves(FirstHalf(t, env) + SecondHalf(t, env), t, env)
    ensures AllInOwnEpoch(FirstHalf(t, env) + SecondHalf(t, env), env.epoch)
  {
    hide Only, LaneOf, StrandOf, Succeeds, InOwnEpoch;
    forall lane
      ensures Only(FirstHalf(t, env) + SecondHalf(t, env), lane) == StrandOf(t, env, lane)
    {
      hide FirstHalf, SecondHalf;
      OnlyConcat(FirstHalf(t, env), SecondHalf(t, env), lane);
      FirstOnly(t, env, lane);
      SecondOnly(t, env, lane);
    }
    OrderlyFold(t, env);
    hide FoldAfterCommittees;
    forall lane
      ensures AllInOwnEpoch(StrandOf(t, env, lane), env.epoch)
    {
      StrandsAreInLane(t, env, lane);
    }
  }

  lemma FirstOnly(t: Inputs, env: Env, lane: Lane)
    requires Succeeds(t, env)
    ensures Only(FirstHalf(t, env), lane) == if lane in {StateLane, PrevLane, CurrLane} then StrandOf(t, env, lane) else []
  {
    hide Only, StrandOf, Succeeds;
    var a, b, c := StrandOf(t, env, StateLane), StrandOf(t, env, PrevLane), StrandOf(t, env, CurrLane);
    OnlyConcat(a + b, c, lane);
    OnlyConcat(a, b, lane);
    OnlyOwn(t, env, StateLane, lane);
    OnlyOwn(t, env, PrevLane, lane);
    OnlyOwn(t, env, CurrLane, lane);
  }

  lemma SecondOnly(t: Inputs, env: Env, lane: Lane)
    requires Succeeds(t, env)
    ensures Only(SecondHalf(t, env), lane) == if lane in {StateLane, PrevLane, CurrLane} then [] else StrandOf(t, env, lane)
  {
    hide Only, StrandOf, Succeeds;
    var a, b, c, d := StrandOf(t, env, FoldLane), StrandOf(t, env, SyncLane), StrandOf(t, env, ProposeLane), StrandOf(t, env, WithdrawLane);
    OnlyConcat(a + b + c, d, lane);
    OnlyConcat(a + b, c, lane);
    OnlyConcat(a, b, lane);
    OnlyOwn(t, env, FoldLane, lane);
    OnlyOwn(t, env, SyncLane, lane);
    OnlyOwn(t, env, ProposeLane, lane);
    OnlyOwn(t, env, WithdrawLane, lane);
  }

  lemma OnlyOwn(t: Inputs, env: Env, own: Lane, lane: Lane)
    requires Succeeds(t, env)
    ensures Only(StrandOf(t, env, own), lane) == if lane == own then StrandOf(t, env, own) else []
  {
    hide StrandOf, Succeeds;
    StrandsAreInLane(t, env, own);
    OnlyOfLane(StrandOf(t, env, own), own, lane);
  }

  lemma OrderlyFold(t: Inputs, env: Env)
    requires Succeeds(t, env)
    ensures FoldAfterCommittees(FirstHalf(t, env) + SecondHalf(t, env))
  {
    hide StrandOf, Succeeds;
    var first, second := FirstHalf(t, env), SecondHalf(t, env);
    forall lane
      ensures AllIn(StrandOf(t, env, lane), lane)
    {
      StrandsAreInLane(t, env, lane);
    }
    assert forall i :: 0 <= i < |first| ==> !first[i].FoldOne?;
    assert forall i :: 0 <= i < |second| ==> !FeedsFold(second[i]);
    hide FirstHalf, SecondHalf;
  }

  /** The store when the fold starts. */
  ghost function AfterMembers(st: Storage, env: Env, t: Inputs): Storage
    requires Succeeds(t, env)
  {
    ExpectCommittees(ExpectCommittees(StateChecked(st, env.epoch, t.validators), env.epoch - 1, t.prev), env.epoch, t.curr)
  }

  lemma FirstResult(st: Storage, env: Env, t: Inputs)
    requires Succeeds(t, env)
    ensures Run(Shared(st, map[]), env, FirstHalf(t, env)) == Shared(AfterMembers(st, env, t), CommitteesFor(t))
  {
    hide Run, StateChecked, ExpectCommittees, AddCommittees, AllResolve, ActiveIncrements, CommitteesSteps, StatesOf, BaseReward, ActiveCount;
    var state, prev, curr := StrandOf(t, env, StateLane), CommitteesSteps(t.prev, true), CommitteesSteps(t.curr, false);
    var sh := Shared(st, map[]);
    var sh1 := sh.(st := StateChecked(st, env.epoch, t.validators));
    var sh2 := Shared(ExpectCommittees(sh1.st, env.epoch - 1, t.prev), AddCommittees(map[], t.prev));
    StateStrandRun(sh, env, t);
    CommitteesRun(sh1, env, t.prev, true);
    CommitteesRun(sh2, env, t.curr, false);
    hide AllIn, AllInOwnEpoch;
    RunConcat(sh, env, state + prev, curr);
    RunConcat(sh, env, state, prev);
  }

  lemma RunInFour(sh: Shared, env: Env, a: seq<Step>, b: seq<Step>, c: seq<Step>, d: seq<Step>)
    ensures Run(sh, env, a + b + c + d) == Run(Run(Run(Run(sh, env, a), env, b), env, c), env, d)
  {
    hide Run;
    RunConcat(sh, env, a + b + c, d);
    RunConcat(sh, env, a + b, c);
    RunConcat(sh, env, a, b);
  }

  lemma SecondResult(sh: Shared, env: Env, t: Inputs)
    requires Succeeds(t, env) && sh.committees == CommitteesFor(t)
    ensures Run(sh, env, SecondHalf(t, env))
         == (var st1 := RunAll(sh.st, env.epoch, AggregatesFor(t, env));
             var st2 := Sync.SyncChecked(st1, env.epoch, t.committee, Sync.BlocksOf(env.epoch, t.syncBits));
             var st3 := Propose.Proposed(st2, env.epoch, t.duties, t.headers);
             sh.(st := Withdrawals.WithdrawAll(st3, env.epoch, Withdrawals.InBlocks(t.withdrawals))))
  {
    SecondHalfIs(t, env);
    hide Run, RunAll, Sync.SyncChecked, Propose.Proposed, Withdrawals.WithdrawAll, Succeeds, AllIn, AllInOwnEpoch, StrandOf, SecondHalf;
    hide FoldsOf, SeatsOf, ProposersOf, WithdrawalsOf, AggregatesFor, CommitteesFor, Sync.BlocksOf, Withdrawals.InBlocks;
    var sh1 := sh.(st := RunAll(sh.st, env.epoch, AggregatesFor(t, env)));
    var sh2 := sh.(st := Sync.SyncChecked(sh1.st, env.epoch, t.committee, Sync.BlocksOf(env.epoch, t.syncBits)));
    var sh3 := sh.(st := Propose.Proposed(sh2.st, env.epoch, t.duties, t.headers));
    var ws := Withdrawals.InBlocks(t.withdrawals);
    FoldStrandRun(sh, env, t);
    SyncStrandRun(sh1, env, t);
    ProposersRun(sh2, env, t.duties, t.headers);
    WithdrawalsRun(sh3, env, ws);
    RunInFour(sh, env, StrandOf(t, env, FoldLane), StrandOf(t, env, SyncLane), ProposersOf(t.duties, t.headers), WithdrawalsOf(ws));
  }

  lemma SecondHalfIs(t: Inputs, env: Env)
    requires Succeeds(t, env)
    ensures SecondHalf(t, env)
         == StrandOf(t, env, FoldLane) + StrandOf(t, env, SyncLane) + ProposersOf(t.duties, t.headers) + WithdrawalsOf(Withdrawals.InBlocks(t.withdrawals))
  {
    hide FoldsOf, SeatsOf, ProposersOf, WithdrawalsOf, Succeeds;
  }

  lemma OrderlyResult(st: Storage, env: Env, t: Inputs)
    requires Succeeds(t, env)
    ensures Run(Shared(st, map[]), env, FirstHalf(t, env) + SecondHalf(t, env)).st == OneAfterAnother(st, env, t)
  {
    hide Run, FirstHalf, SecondHalf, StateChecked, ExpectCommittees, RunAll, Sync.SyncChecked, Propose.Proposed, Withdrawals.WithdrawAll;
    hide Succeeds, AggregatesFor, CommitteesFor, Sync.BlocksOf, Withdrawals.InBlocks;
    FirstResult(st, env, t);
    SecondResult(Shared(AfterMembers(st, env, t), CommitteesFor(t)), env, t);
    RunConcat(Shared(st, map[]), env, FirstHalf(t, env), SecondHalf(t, env));
  }

  /** A run takes only steps of its strands. */
  lemma RunInOwnEpoch(tr: seq<Step>, t: Inputs, env: Env)
    requires Succeeds(t, env) && Interleaves(tr, t, env)
    ensures AllInOwnEpoch(tr, env.epoch)
  {
    hide Only, StrandOf, Succeeds, InOwnEpoch;
    forall i | 0 <= i < |tr|
      ensures InOwnEpoch(tr[i], env.epoch)
    {
      InItsLane(tr, i);
      var lane := LaneOf(tr[i]);
      StrandsAreInLane(t, env, lane);
      assert tr[i] in StrandOf(t, env, lane);
    }
  }

  /** However the event loop mixes the five checks, and the two pipelines that fill the committee map, the store ends as
      if the checks had run one after another. */
  lemma AnyInterleaving(st: Storage, env: Env, t: Inputs, tr: seq<Step>)
    requires Succeeds(t, env) && Interleaves(tr, t, env)
    ensures Run(Shared(st, map[]), env, tr).st == OneAfterAnother(st, env, t)
  {
    RunInOwnEpoch(tr, t, env);
    hide Run, OneAfterAnother, FirstHalf, SecondHalf, Only, StrandOf, Succeeds, FoldAfterCommittees, AllInOwnEpoch;
    OrderlyRun(t, env);
    OrderlyResult(st, env, t);
    SameStrandsSameStore(Shared(st, map[]), env, tr, FirstHalf(t, env) + SecondHalf(t, env));
  }
}
