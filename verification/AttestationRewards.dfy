/** Attestation rewards of the previous epoch's votes. Participation enters as a fixed-point number with 18
    decimals, so a reward can fall one unit short of the specification and never exceeds it. */
module AttestationRewards {
  import opened Constants
  import opened Arithmetic
  import opened Options
  import opened Summary
  import opened AttestationConstants
  import opened AttestationAccounting
  import opened DutyMetadata
  import Attestation

  const FIXED_ONE := 1_000_000_000_000_000_000

  /** `FixedNumber.divUnsafe`: the quotient cut off after 18 decimals. */
  function FixedDiv(a: nat, b: nat): real
    requires b > 0
  {
    (a * FIXED_ONE / b) as real / FIXED_ONE as real
  }

  datatype Shares = Shares(source: real, target: real, head: real)

  function Share(flag: bool, weight: nat): real {
    if flag then weight as real / WEIGHT_DENOMINATOR as real else 0.0
  }

  function GetRewards(flags: Flags): Shares {
    Shares(Share(flags.source, TIMELY_SOURCE_WEIGHT), Share(flags.target, TIMELY_TARGET_WEIGHT), Share(flags.head, TIMELY_HEAD_WEIGHT))
  }

  function GetPenalties(flags: Flags): Shares {
    Shares(Share(!flags.source, TIMELY_SOURCE_WEIGHT), Share(!flags.target, TIMELY_TARGET_WEIGHT), 0.0)
  }

  /** `Math.trunc` on the non-negative products that occur here. */
  function Trunc(x: real): int {
    x.Floor
  }

  function Component(share: real, baseRewardIncrements: nat, participation: real): int {
    Trunc(share * (baseRewardIncrements as real * participation))
  }

  /** What an attester gets for a flag set, given participation as the program has it. */
  function RewardEarned(flags: Flags, baseRewardIncrements: nat, p: Shares): int {
    var r := GetRewards(flags);
    Component(r.source, baseRewardIncrements, p.source) + Component(r.target, baseRewardIncrements, p.target)
    + Component(r.head, baseRewardIncrements, p.head)
  }

  function Penalty(flags: Flags, baseRewardIncrements: nat): int {
    var r := GetPenalties(flags);
    Trunc(r.source * baseRewardIncrements as real) + Trunc(r.target * baseRewardIncrements as real) + Trunc(r.head * baseRewardIncrements as real)
  }

  const ALL_FLAGS := Flags(true, true, true)

  // ---- against the specification ---------------------------------------------------------------

  /** The reward of `get_flag_index_deltas` (no inactivity leak) in the Altair beacon-chain specification, for a
      validator whose base reward is `baseReward`. */
  function SpecReward(baseReward: nat, weight: nat, participatingIncrements: nat, activeIncrements: nat): nat
    requires activeIncrements > 0
  {
    baseReward * weight * participatingIncrements / (activeIncrements * WEIGHT_DENOMINATOR)
  }

  function SpecPenalty(baseReward: nat, weight: nat): nat {
    baseReward * weight / WEIGHT_DENOMINATOR
  }

  lemma FloorIs(x: real, n: int)
    requires n as real <= x < (n + 1) as real
    ensures x.Floor == n
  {
  }

  /** In exact arithmetic the program computes `floor(base * weight * P / (64 * 10^18))`, with `P` the fixed-point
      participation as an integer. */
  lemma ComponentIsFloor(weight: nat, base: nat, fixed: nat)
    ensures Component(Share(true, weight), base, fixed as real / FIXED_ONE as real)
         == base * weight * fixed / (64 * FIXED_ONE)
  {
    var d := 64 * FIXED_ONE;
    var k := base * weight * fixed;
    var n := k / d;
    Division(k, d);
    var x := Share(true, weight) * (base as real * (fixed as real / FIXED_ONE as real));
    RealProduct(weight, base, fixed);
    assert x == k as real / d as real;
    FloorIs(x, n);
  }

  lemma RealProduct(weight: nat, base: nat, fixed: nat)
    ensures weight as real / 64.0 * (base as real * (fixed as real / FIXED_ONE as real))
         == (base * weight * fixed) as real / (64 * FIXED_ONE) as real
  {
    var w, b, f := weight as real, base as real, fixed as real;
    assert (base * weight) as real == b * w;
    assert (base * weight * fixed) as real == (base * weight) as real * f;
    var o := FIXED_ONE as real;
    assert w / 64.0 * (b * (f / o)) == (b * w) * f / (64.0 * o) by {
      Regroup(w, b, f);
    }
  }

  lemma Regroup(w: real, b: real, f: real)
    ensures w / 64.0 * (b * (f / FIXED_ONE as real)) == (b * w) * f / (64.0 * FIXED_ONE as real)
  {
    var o := FIXED_ONE as real;
    var u, v := w / 64.0, f / o;
    assert w == u * 64.0 && f == v * o;
    assert u * (b * v) == b * u * v;
    assert (b * w) * f == (b * u * v) * (64.0 * o) by {
      assert b * w == (b * u) * 64.0;
      assert ((b * u) * 64.0) * (v * o) == ((b * u) * v) * (64.0 * o);
    }
  }

  /** The error bound: at most the specified reward, at least that less one. */
  lemma RewardWithinOne(weight: nat, base: nat, participating: nat, active: nat)
    requires active > 0 && base * weight < 64 * FIXED_ONE
    ensures SpecReward(base, weight, participating, active) - 1
         <= Component(Share(true, weight), base, FixedDiv(participating, active))
         <= SpecReward(base, weight, participating, active)
  {
    ComponentIsFloor(weight, base, participating * FIXED_ONE / active);
    hide Component;
    CutsWithinOne(base * weight, participating, active);
  }

  /** Cutting the participation off first, against the specification's single division. */
  function CutTwice(k: nat, p: nat, a: nat): int
    requires a > 0
  {
    k * (p * FIXED_ONE / a) / (64 * FIXED_ONE)
  }

  function CutOnce(k: nat, p: nat, a: nat): int
    requires a > 0
  {
    k * p / (a * 64)
  }

  lemma CutsWithinOne(k: nat, p: nat, a: nat)
    requires a > 0 && k < 64 * FIXED_ONE
    ensures CutOnce(k, p, a) - 1 <= CutTwice(k, p, a) <= CutOnce(k, p, a)
  {
    var fixed := p * FIXED_ONE / a;
    Division(p * FIXED_ONE, a);
    Division(k * fixed, 64 * FIXED_ONE);
    Division(k * p, a * 64);
    FloorsClose(k, p, a, fixed, CutTwice(k, p, a), CutOnce(k, p, a));
  }

  /** Exactly when the two agree: the remainder of the single division covers what cutting off the participation lost. */
  lemma CutsAgreeIf(k: nat, p: nat, a: nat)
    requires a > 0
    ensures CutTwice(k, p, a) == CutOnce(k, p, a) <==> FIXED_ONE * (k * p % (a * 64)) >= k * (p * FIXED_ONE % a)
  {
    var fixed := p * FIXED_ONE / a;
    Division(p * FIXED_ONE, a);
    Division(k * fixed, 64 * FIXED_ONE);
    Division(k * p, a * 64);
    Scaled(k, p, a, fixed);
    Upper(k, p, a, fixed, CutTwice(k, p, a), CutOnce(k, p, a));
    Remainders(k, p, a, fixed, CutOnce(k, p, a), p * FIXED_ONE % a, k * p % (a * 64));
    Reaches(k * fixed, 64 * FIXED_ONE, CutTwice(k, p, a), CutOnce(k, p, a));
    assert p * FIXED_ONE == a * fixed + p * FIXED_ONE % a;
    assert k * p == a * 64 * CutOnce(k, p, a) + k * p % (a * 64);
  }

  /** With `n` the floor of `x / d` and `n <= m`, the two are equal exactly if `x` reaches `d * m`. */
  lemma Reaches(x: int, d: int, n: int, m: int)
    requires d > 0 && d * n <= x < d * n + d && n <= m
    ensures n == m <==> d * m <= x
  {
    assert n < m ==> d * m >= d * (n + 1) == d * n + d;
  }

  lemma Remainders(k: nat, p: nat, a: nat, fixed: int, m: int, r: int, s: int)
    requires a > 0
    ensures p * FIXED_ONE == a * fixed + r && k * p == a * 64 * m + s ==>
              (64 * FIXED_ONE * m <= k * fixed <==> FIXED_ONE * s >= k * r)
  {
    if p * FIXED_ONE == a * fixed + r && k * p == a * 64 * m + s {
      var d := FIXED_ONE;
      assert k * (p * d) == k * (a * fixed) + k * r;
      assert (k * p) * d == (a * 64 * m) * d + s * d;
      assert a * (k * fixed) - a * (64 * d * m) == d * s - k * r;
      SameSign(a, k * fixed - 64 * d * m);
      assert a * (k * fixed - 64 * d * m) == a * (k * fixed) - a * (64 * d * m);
    }
  }

  lemma SameSign(a: int, x: int)
    requires a > 0
    ensures a * x >= 0 <==> x >= 0
  {
    assert x < 0 ==> a * x < 0;
  }

  /** A reward component equals the specification's exactly if the remainder of the specification's division is large
      enough; otherwise it is one unit less. */
  lemma RewardExactIf(weight: nat, base: nat, participating: nat, active: nat)
    requires active > 0
    ensures Component(Share(true, weight), base, FixedDiv(participating, active)) == SpecReward(base, weight, participating, active)
       <==> FIXED_ONE * (base * weight * participating % (active * WEIGHT_DENOMINATOR)) >= base * weight * (participating * FIXED_ONE % active)
  {
    ComponentIsFloor(weight, base, participating * FIXED_ONE / active);
    hide Component;
    CutsAgreeIf(base * weight, participating, active);
  }

  /** A third of the stake took part: the specification pays 7, the program 6. */
  lemma RewardOneShort()
    ensures SpecReward(96, 14, 1, 3) == 7
    ensures Component(Share(true, 14), 96, FixedDiv(1, 3)) == 6
  {
    ComponentIsFloor(14, 96, 1 * FIXED_ONE / 3);
    hide Component;
  }

  /** `n` is the floor of `k * fixed / 64D` where `fixed` is the floor of `p * D / a`; `m` is that of `k * p / 64a`. */
  lemma FloorsClose(k: nat, p: nat, a: nat, fixed: nat, n: int, m: int)
    requires a > 0 && k < 64 * FIXED_ONE
    requires a * fixed <= p * FIXED_ONE < a * fixed + a
    requires 64 * FIXED_ONE * n <= k * fixed < 64 * FIXED_ONE * n + 64 * FIXED_ONE
    requires a * 64 * m <= k * p < a * 64 * m + a * 64
    ensures m - 1 <= n <= m
  {
    Scaled(k, p, a, fixed);
    Upper(k, p, a, fixed, n, m);
    Lower(k, p, a, fixed, n, m);
  }

  lemma Scaled(k: nat, p: nat, a: nat, fixed: nat)
    requires a * fixed <= p * FIXED_ONE < a * fixed + a
    ensures k * fixed * a <= k * p * FIXED_ONE <= k * fixed * a + k * a
  {
    assert k * (a * fixed) <= k * (p * FIXED_ONE) <= k * (a * fixed + a);
    assert k * (a * fixed) == k * fixed * a && k * (p * FIXED_ONE) == k * p * FIXED_ONE && k * (a * fixed + a) == k * fixed * a + k * a;
  }

  lemma Upper(k: nat, p: nat, a: nat, fixed: nat, n: int, m: int)
    requires a > 0 && k * fixed * a <= k * p * FIXED_ONE
    requires 64 * FIXED_ONE * n <= k * fixed
    requires k * p < a * 64 * m + a * 64
    ensures n <= m
  {
    var d := FIXED_ONE;
    assert 64 * d * n * a <= k * fixed * a;
    assert k * p * d < (a * 64 * m + a * 64) * d;
    assert 64 * d * n * a == (64 * d * a) * n;
    assert (a * 64 * m + a * 64) * d == (64 * d * a) * (m + 1);
    LessByProducts(64 * d * a, n, m + 1);
  }

  lemma Lower(k: nat, p: nat, a: nat, fixed: nat, n: int, m: int)
    requires a > 0 && k < 64 * FIXED_ONE
    requires k * p * FIXED_ONE <= k * fixed * a + k * a
    requires k * fixed < 64 * FIXED_ONE * n + 64 * FIXED_ONE
    requires a * 64 * m <= k * p
    ensures m - 1 <= n
  {
    var d := FIXED_ONE;
    var c := 64 * d * a;
    assert c * m == (a * 64 * m) * d <= (k * p) * d;
    assert (k * fixed) * a <= (64 * d * n + 64 * d) * a == c * n + c;
    assert k * a < (64 * d) * a == c;
    assert c * (n + 2) == c * n + c + c;
    LessByProducts(c, m, n + 2);
  }

  /** Penalties match the specification exactly. */
  lemma PenaltyMatchesSpec(flags: Flags, base: nat)
    ensures Penalty(flags, base) == (if flags.source then 0 else SpecPenalty(base, TIMELY_SOURCE_WEIGHT))
                                    + (if flags.target then 0 else SpecPenalty(base, TIMELY_TARGET_WEIGHT))
  {
    PenaltyIsFloor(!flags.source, TIMELY_SOURCE_WEIGHT, base);
    PenaltyIsFloor(!flags.target, TIMELY_TARGET_WEIGHT, base);
    assert Trunc(0.0 * base as real) == 0;
    hide SpecPenalty, Trunc, Share;
  }

  lemma PenaltyIsFloor(missed: bool, weight: nat, base: nat)
    ensures Trunc(Share(missed, weight) * base as real) == if missed then SpecPenalty(base, weight) else 0
  {
    if missed {
      Division(base * weight, WEIGHT_DENOMINATOR);
      assert (base * weight) as real == base as real * weight as real;
      FloorIs(Share(true, weight) * base as real, SpecPenalty(base, weight));
    }
  }

  lemma ComponentBounds(flag: bool, weight: nat, base: nat, p: real)
    requires p >= 0.0
    ensures 0 <= Component(Share(flag, weight), base, p) <= Component(Share(true, weight), base, p)
  {
    var x := base as real * p;
    assert x >= 0.0;
    assert Share(true, weight) >= 0.0;
    assert Share(true, weight) * x >= 0.0;
  }

  /** Whatever flags a validator earned, its reward lies between nothing and the perfect one. */
  lemma EarnedBounds(flags: Flags, base: nat, p: Shares)
    requires p.source >= 0.0 && p.target >= 0.0 && p.head >= 0.0
    ensures 0 <= RewardEarned(flags, base, p) <= RewardEarned(ALL_FLAGS, base, p)
  {
    ComponentBounds(flags.source, TIMELY_SOURCE_WEIGHT, base, p.source);
    ComponentBounds(flags.target, TIMELY_TARGET_WEIGHT, base, p.target);
    ComponentBounds(flags.head, TIMELY_HEAD_WEIGHT, base, p.head);
    hide Component;
  }

  // ---- the service -----------------------------------------------------------------------------

  /** A vote as the reward rules see it: a flag that is absent was not earned. */
  function FlagsOf(a: AttDuty): Flags {
    Flags(Truthy(a.source), Truthy(a.target), Truthy(a.head))
  }

  /** The vote that counts: none at all for a slashed validator. */
  function CountedVote(d: Duty, vote: AttDuty): AttDuty {
    if Truthy(d.state.slashed) then NO_ATT else vote
  }

  function RewardsFor(vote: AttDuty, base: nat, p: Shares): Rewards {
    var earned := RewardEarned(FlagsOf(vote), base, p);
    Rewards(Some(earned), Some(RewardEarned(ALL_FLAGS, base, p) - earned), Some(Penalty(FlagsOf(vote), base)))
  }

  /** The record of a validator after its vote of the previous epoch was settled. */
  function Settled(d: Duty, vote: AttDuty, perIncrement: nat, p: Shares): Duty {
    var counted := CountedVote(d, vote);
    var base := perIncrement * IncrementsOf(d.state.effectiveBalance.GetOr(0));
    Merge(d, NO_DUTY.(att := counted, attRewards := RewardsFor(counted, base, p)))
  }

  /** Every record of every epoch once the validators in `done` are settled. */
  ghost function SettledAt(st: Storage, epoch: int, done: set<int>, p: Shares, e: int, v: int): Duty {
    var d, vote := DutyAt(st, epoch, v), DutyAt(st, epoch - 1, v).att;
    if v !in done || vote.happened.None? then DutyAt(st, e, v)
    else if e == epoch then Settled(d, vote, MetaAt(st, epoch).state.baseReward, p)
    else if e == epoch - 1 then DutyAt(st, e, v).(att := CountedVote(d, vote))
    else DutyAt(st, e, v)
  }

  ghost predicate AllSettled(st: Storage, st': Storage, epoch: int, done: set<int>, p: Shares) {
    && DutiesAt(st', epoch).Keys == DutiesAt(st, epoch).Keys
    && (forall e :: MetaAt(st', e) == MetaAt(st, e))
    && forall e, v :: DutyAt(st', e, v) == SettledAt(st, epoch, done, p, e, v)
  }

  /** A validator is left alone or has a balance to compute with; otherwise the program throws. */
  predicate CanSettle(st: Storage, epoch: int, v: int) {
    DutyAt(st, epoch - 1, v).att.happened.None? || DutyAt(st, epoch, v).state.effectiveBalance.Some?
  }

  function ParticipationShares(m: EpochMeta): Shares
    requires m.state.totalIncrements > 0
  {
    var p, total := m.att.participation, m.state.totalIncrements;
    Shares(FixedDiv(p.source, total), FixedDiv(p.target, total), FixedDiv(p.head, total))
  }

  class AttestationRewardsService {
    const summary: SummaryService

    constructor (summary: SummaryService)
      ensures this.summary == summary
    {
      this.summary := summary;
    }

    /** One validator with a vote to settle. A slashed validator also loses its record of the previous epoch. */
    method Settle(epoch: int, v: int, perIncrement: nat, p: Shares)
      requires DutyAt(summary.storage, epoch - 1, v).att.happened.Some?
      modifies summary
      ensures var st, st' := old(summary.storage), summary.storage;
              var d, pv := DutyAt(st, epoch, v), DutyAt(st, epoch - 1, v);
        st' == WithDuty(WithDuty(st, epoch - 1, v, pv.(att := CountedVote(d, pv.att))), epoch, v, Settled(d, pv.att, perIncrement, p))
    {
      hide RewardEarned, Penalty;
      var duty := summary.Get(epoch, v);
      var d := if duty.Some? then duty.value else NO_DUTY;
      var prev := summary.Get(epoch - 1, v);
      var pv := if prev.Some? then prev.value else NO_DUTY;
      var base := perIncrement * IncrementsOf(d.state.effectiveBalance.GetOr(0));
      var perfect := RewardEarned(ALL_FLAGS, base, p);
      var vote := pv.att;
      if Truthy(d.state.slashed) {
        vote := NO_ATT;
        summary.Replace(epoch - 1, v, pv.(att := vote));
      }
      SameRecord(old(summary.storage), epoch - 1, v);
      var earned, penalty := RewardEarned(FlagsOf(vote), base, p), Penalty(FlagsOf(vote), base);
      summary.Set(epoch, v, NO_DUTY.(att := vote, attRewards := Rewards(Some(earned), Some(perfect - earned), Some(penalty))));
    }

    method Calculate(epoch: int) returns (ok: bool)
      modifies summary
      ensures var st, st' := old(summary.storage), summary.storage;
              var m := MetaAt(st, epoch);
        && (ok <==> m.state.totalIncrements > 0 && forall v :: v in DutiesAt(st, epoch) ==> CanSettle(st, epoch, v))
        && (ok ==> AllSettled(st, st', epoch, DutiesAt(st, epoch).Keys, ParticipationShares(m)))
    {
      ghost var st := summary.storage;
      var meta := summary.GetMeta(epoch);
      ok := meta.state.totalIncrements > 0;
      if !ok {
        return;
      }
      var p := ParticipationShares(meta);
      var todo := summary.storage[epoch].summary.Keys;
      ghost var done: set<int> := {};
      NothingSettled(st, epoch, p);
      hide ParticipationShares, Settled, SettledAt;
      while todo != {}
        invariant ok
        invariant done + todo == DutiesAt(st, epoch).Keys && done !! todo
        invariant forall v :: v in done ==> CanSettle(st, epoch, v)
        invariant AllSettled(st, summary.storage, epoch, done, p)
      {
        var v := NextKey(todo);
        ok := SettleNext(epoch, v, meta.state.baseReward, p, st, done);
        if !ok {
          return;
        }
        todo, done := todo - {v}, done + {v};
      }
      assert done == DutiesAt(st, epoch).Keys;
    }

    /** One turn of the loop over the validators of the epoch. */
    method SettleNext(epoch: int, v: int, perIncrement: nat, p: Shares, ghost st: Storage, ghost done: set<int>) returns (ok: bool)
      requires AllSettled(st, summary.storage, epoch, done, p) && v !in done && v in DutiesAt(st, epoch)
      requires perIncrement == MetaAt(st, epoch).state.baseReward
      modifies summary
      ensures ok <==> CanSettle(st, epoch, v)
      ensures ok ==> AllSettled(st, summary.storage, epoch, done + {v}, p)
    {
      ghost var before := summary.storage;
      var pv := summary.Get(epoch - 1, v);
      var d := summary.Get(epoch, v);
      StillUnsettled(st, before, summary.storage, epoch, v, done, p);
      hide AllSettled, SettledAt;
      if pv.None? || pv.value.att.happened.None? {
        OneMoreSettled(st, summary.storage, summary.storage, epoch, v, done, p);
        return true;
      }
      ok := d.Some? && d.value.state.effectiveBalance.Some?;
      if ok {
        ghost var mid := summary.storage;
        Settle(epoch, v, perIncrement, p);
        OneMoreSettled(st, mid, summary.storage, epoch, v, done, p);
      }
    }
  }

  /** Writing back the record that is there changes nothing but the initialisation of its epoch. */
  lemma SameRecord(st: Storage, epoch: int, v: int)
    requires v in DutiesAt(st, epoch)
    ensures WithDuty(st, epoch, v, DutyAt(st, epoch, v)) == Touch(st, epoch)
  {
    var s := InfoAt(st, epoch).summary;
    assert s[v := s[v]] == s;
  }

  lemma NothingSettled(st: Storage, epoch: int, p: Shares)
    ensures AllSettled(st, Touch(st, epoch), epoch, {}, p)
  {
    forall e, v
      ensures DutyAt(Touch(st, epoch), e, v) == SettledAt(st, epoch, {}, p, e, v)
      ensures MetaAt(Touch(st, epoch), e) == MetaAt(st, e)
    {
      TouchIsInvisible(st, epoch, e, v);
    }
  }

  /** A validator not settled yet still reads as before. */
  lemma StillUnsettled(st: Storage, before: Storage, st': Storage, epoch: int, v: int, done: set<int>, p: Shares)
    requires AllSettled(st, before, epoch, done, p) && v !in done
    requires st' == Touch(Touch(before, epoch - 1), epoch)
    ensures AllSettled(st, st', epoch, done, p)
    ensures DutyAt(st', epoch, v) == DutyAt(st, epoch, v) && DutyAt(st', epoch - 1, v) == DutyAt(st, epoch - 1, v)
  {
    forall e, u
      ensures DutyAt(st', e, u) == DutyAt(before, e, u) && MetaAt(st', e) == MetaAt(before, e)
    {
      TouchIsInvisible(before, epoch - 1, e, u);
      TouchIsInvisible(Touch(before, epoch - 1), epoch, e, u);
    }
    assert DutyAt(before, epoch, v) == SettledAt(st, epoch, done, p, epoch, v);
    assert DutyAt(before, epoch - 1, v) == SettledAt(st, epoch, done, p, epoch - 1, v);
    hide SettledAt;
  }

  lemma OneMoreSettled(st: Storage, before: Storage, st': Storage, epoch: int, v: int, done: set<int>, p: Shares)
    requires AllSettled(st, before, epoch, done, p) && v !in done && v in DutiesAt(st, epoch)
    requires var d, pv := DutyAt(st, epoch, v), DutyAt(st, epoch - 1, v);
      st' == (if pv.att.happened.None? then before
              else WithDuty(WithDuty(before, epoch - 1, v, pv.(att := CountedVote(d, pv.att))), epoch, v,
                            Settled(d, pv.att, MetaAt(st, epoch).state.baseReward, p)))
    ensures AllSettled(st, st', epoch, done + {v}, p)
  {
    var d, pv := DutyAt(st, epoch, v), DutyAt(st, epoch - 1, v);
    var mid := WithDuty(before, epoch - 1, v, pv.(att := CountedVote(d, pv.att)));
    var settled := Settled(d, pv.att, MetaAt(st, epoch).state.baseReward, p);
    hide Settled;
    forall e, u
      ensures DutyAt(st', e, u) == SettledAt(st, epoch, done + {v}, p, e, u) && MetaAt(st', e) == MetaAt(st, e)
    {
      DutyAfterWrite(before, epoch - 1, v, pv.(att := CountedVote(d, pv.att)), e, u);
      DutyAfterWrite(mid, epoch, v, settled, e, u);
      assert DutyAt(before, e, u) == SettledAt(st, epoch, done, p, e, u);
      hide DutyAt, WithDuty;
    }
  }

  // ---- what a settled record says --------------------------------------------------------------

  /** The specification's rewards for a set of flags, summed. */
  function SpecEarned(flags: Flags, base: nat, m: EpochMeta): int
    requires m.state.totalIncrements > 0
  {
    var p, total := m.att.participation, m.state.totalIncrements;
    (if flags.source then SpecReward(base, TIMELY_SOURCE_WEIGHT, p.source, total) else 0)
    + (if flags.target then SpecReward(base, TIMELY_TARGET_WEIGHT, p.target, total) else 0)
    + (if flags.head then SpecReward(base, TIMELY_HEAD_WEIGHT, p.head, total) else 0)
  }

  function FlagCount(flags: Flags): int {
    (if flags.source then 1 else 0) + (if flags.target then 1 else 0) + (if flags.head then 1 else 0)
  }

  lemma EarnedNearSpec(flags: Flags, base: nat, m: EpochMeta)
    requires m.state.totalIncrements > 0 && base * TIMELY_TARGET_WEIGHT < 64 * FIXED_ONE
    ensures SpecEarned(flags, base, m) - FlagCount(flags) <= RewardEarned(flags, base, ParticipationShares(m)) <= SpecEarned(flags, base, m)
  {
    var p, total := m.att.participation, m.state.totalIncrements;
    ComponentNearSpec(flags.source, TIMELY_SOURCE_WEIGHT, base, p.source, total);
    ComponentNearSpec(flags.target, TIMELY_TARGET_WEIGHT, base, p.target, total);
    ComponentNearSpec(flags.head, TIMELY_HEAD_WEIGHT, base, p.head, total);
    hide Component, SpecReward, FixedDiv;
  }

  lemma ComponentNearSpec(flag: bool, weight: nat, base: nat, participating: nat, active: nat)
    requires active > 0 && base * weight < 64 * FIXED_ONE
    ensures var c := Component(Share(flag, weight), base, FixedDiv(participating, active));
      if flag then SpecReward(base, weight, participating, active) - 1 <= c <= SpecReward(base, weight, participating, active) else c == 0
  {
    if flag {
      RewardWithinOne(weight, base, participating, active);
    } else {
      assert 0.0 * (base as real * FixedDiv(participating, active)) == 0.0;
    }
  }

  lemma SharesNonNegative(m: EpochMeta)
    requires m.state.totalIncrements > 0
    ensures var p := ParticipationShares(m); p.source >= 0.0 && p.target >= 0.0 && p.head >= 0.0
  {
    assert forall a: nat, b: nat | b > 0 :: a * FIXED_ONE / b >= 0 ==> FixedDiv(a, b) >= 0.0;
    forall a: nat, b: nat | b > 0
      ensures a * FIXED_ONE / b >= 0
    {
      Division(a * FIXED_ONE, b);
    }
  }

  lemma SettledAttRewards(d: Duty, vote: AttDuty, perIncrement: nat, p: Shares)
    ensures Settled(d, vote, perIncrement, p).attRewards
         == RewardsFor(CountedVote(d, vote), perIncrement * IncrementsOf(d.state.effectiveBalance.GetOr(0)), p)
  {
    hide RewardEarned, Penalty;
  }

  lemma PerfectNearSpec(base: nat, m: EpochMeta)
    requires m.state.totalIncrements > 0 && base * 26 < 64 * FIXED_ONE
    ensures var p, total, perfect := m.att.participation, m.state.totalIncrements, RewardEarned(ALL_FLAGS, base, ParticipationShares(m));
            var spec := SpecReward(base, 14, p.source, total) + SpecReward(base, 26, p.target, total) + SpecReward(base, 14, p.head, total);
      spec - 3 <= perfect <= spec
  {
    EarnedNearSpec(ALL_FLAGS, base, m);
    hide RewardEarned, SpecReward, ParticipationShares;
  }

  /** The increments of a balance are determined by it. */
  lemma IncrementsUnique(balance: nat, increments: nat)
    requires GWEI_PER_INCREMENT * increments <= balance < GWEI_PER_INCREMENT * (increments + 1)
    ensures IncrementsOf(balance) == increments
  {
  }

  /** The stored rewards of every validator with a vote to settle, for the whole increments of its effective balance: the
      earned part misses the specification by at most one unit a flag, so does the perfect reward that earned and missed
      make up, and the penalty is exact. A slashed validator counts as one that did not vote, and its vote is forgotten. */
  lemma SettledRewards(st: Storage, st': Storage, epoch: int, v: int, increments: nat, base: nat)
    requires var m := MetaAt(st, epoch);
      m.state.totalIncrements > 0 && AllSettled(st, st', epoch, DutiesAt(st, epoch).Keys, ParticipationShares(m))
    requires v in DutiesAt(st, epoch) && DutyAt(st, epoch - 1, v).att.happened.Some?
    requires GWEI_PER_INCREMENT * increments <= DutyAt(st, epoch, v).state.effectiveBalance.GetOr(0) < GWEI_PER_INCREMENT * (increments + 1)
    requires base == MetaAt(st, epoch).state.baseReward * increments
    ensures var m, d, vote, r := MetaAt(st, epoch), DutyAt(st, epoch, v), DutyAt(st, epoch - 1, v).att, DutyAt(st', epoch, v).attRewards;
            var total, p := m.state.totalIncrements, m.att.participation;
            var slashed := d.state.slashed == Some(true);
            var source, target := !slashed && vote.source == Some(true), !slashed && vote.target == Some(true);
            var head := !slashed && vote.head == Some(true);
            var forSource, forTarget := SpecReward(base, 14, p.source, total), SpecReward(base, 26, p.target, total);
            var forHead := SpecReward(base, 14, p.head, total);
            var spec := (if source then forSource else 0) + (if target then forTarget else 0) + (if head then forHead else 0);
            var flags := (if source then 1 else 0) + (if target then 1 else 0) + (if head then 1 else 0);
      && r.earned.Some? && r.missed.Some? && 0 <= r.earned.value && 0 <= r.missed.value
      && (base * 26 < 64 * FIXED_ONE ==>
            && spec - flags <= r.earned.value <= spec
            && forSource + forTarget + forHead - 3 <= r.earned.value + r.missed.value <= forSource + forTarget + forHead)
      && r.penalty == Some((if source then 0 else SpecPenalty(base, 14)) + (if target then 0 else SpecPenalty(base, 26)))
      && DutyAt(st', epoch - 1, v) == DutyAt(st, epoch - 1, v).(att := if slashed then NO_ATT else vote)
  {
    var m, d := MetaAt(st, epoch), DutyAt(st, epoch, v);
    var flags := FlagsOf(CountedVote(d, DutyAt(st, epoch - 1, v).att));
    assert DutyAt(st', epoch, v) == SettledAt(st, epoch, DutiesAt(st, epoch).Keys, ParticipationShares(m), epoch, v);
    assert DutyAt(st', epoch - 1, v) == SettledAt(st, epoch, DutiesAt(st, epoch).Keys, ParticipationShares(m), epoch - 1, v);
    IncrementsUnique(d.state.effectiveBalance.GetOr(0), increments);
    SharesNonNegative(m);
    SettledAttRewards(d, DutyAt(st, epoch - 1, v).att, m.state.baseReward, ParticipationShares(m));
    hide AllSettled, Settled, RewardEarned, Penalty, SpecPenalty, SpecReward, ParticipationShares, DutyAt, MetaAt, IncrementsOf;
    EarnedBounds(flags, base, ParticipationShares(m));
    PenaltyMatchesSpec(flags, base);
    if base * 26 < 64 * FIXED_ONE {
      EarnedNearSpec(flags, base, m);
      PerfectNearSpec(base, m);
    }
  }

  /** Nothing else is touched: neither validators without data of the previous epoch, nor other epochs, nor the other parts
      of a record. */
  lemma SettlingTouchesNoMore(st: Storage, st': Storage, epoch: int, p: Shares, e: int, v: int)
    requires AllSettled(st, st', epoch, DutiesAt(st, epoch).Keys, p)
    ensures var d, d' := DutyAt(st, e, v), DutyAt(st', e, v);
      && d' == d.(att := d'.att, attRewards := d'.attRewards)
      && (v !in DutiesAt(st, epoch) || DutyAt(st, epoch - 1, v).att.happened == None || (e != epoch && e != epoch - 1) ==> d' == d)
  {
    assert DutyAt(st', e, v) == SettledAt(st, epoch, DutiesAt(st, epoch).Keys, p, e, v);
    hide AllSettled, RewardsFor, DutyAt, MetaAt;
  }

  // ---- which vote the stored row shows ---------------------------------------------------------

  /** A row shows the settled vote exactly if the vote has a value wherever the row had one: an absent field never
      overwrites. */
  lemma RowShowsVote(d: Duty, vote: AttDuty, perIncrement: nat, p: Shares)
    ensures Settled(d, vote, perIncrement, p).att == CountedVote(d, vote)
       <==> var c := CountedVote(d, vote);
         && (d.att.happened.Some? ==> c.happened.Some?) && (d.att.incDelay.Some? ==> c.incDelay.Some?)
         && (d.att.source.Some? ==> c.source.Some?) && (d.att.target.Some? ==> c.target.Some?)
         && (d.att.head.Some? ==> c.head.Some?)
  {
    hide RewardsFor;
  }

  /** The three shapes of an attestation record: not in a committee, in a committee without a vote, with a vote. */
  predicate Shaped(a: AttDuty) {
    || a == NO_ATT
    || a == NO_ATT.(happened := Some(false))
    || (a.happened == Some(true) && a.incDelay.Some? && a.source.Some? && a.target.Some? && a.head.Some?)
  }

  /** For every validator of the epoch, the row shows the vote that counts exactly if: with nothing to settle (no data of
      the previous epoch, or slashed) the row had no attestation data either; otherwise it voted in the previous epoch,
      or did not vote in this one. */
  lemma RowShowsPreviousVote(st: Storage, st': Storage, epoch: int, v: int, p: Shares)
    requires AllSettled(st, st', epoch, DutiesAt(st, epoch).Keys, p) && v in DutiesAt(st, epoch)
    requires Shaped(DutyAt(st, epoch, v).att) && Shaped(DutyAt(st, epoch - 1, v).att)
    ensures var d, vote := DutyAt(st, epoch, v), DutyAt(st, epoch - 1, v).att;
      DutyAt(st', epoch, v).att == (if d.state.slashed == Some(true) then NO_ATT else vote)
      <==> if vote.happened.None? || Truthy(d.state.slashed) then d.att == NO_ATT
           else vote.happened == Some(true) || d.att.happened != Some(true)
  {
    var d, vote := DutyAt(st, epoch, v), DutyAt(st, epoch - 1, v).att;
    assert DutyAt(st', epoch, v) == SettledAt(st, epoch, DutiesAt(st, epoch).Keys, p, epoch, v);
    hide AllSettled, Settled, DutyAt, MetaAt;
    RowShowsVote(d, vote, MetaAt(st, epoch).state.baseReward, p);
  }

  /** A newly activated validator has no data of the previous epoch. What its row already says of this epoch stays, since
      blanking it with undefined values changes nothing. */
  lemma RowKeepsCurrentVote(epoch: int, v: int, p: Shares)
    ensures var expected := NO_ATT.(happened := Some(false));
            var st := WithDuty(map[], epoch, v, NO_DUTY.(att := expected));
      && AllSettled(st, st, epoch, DutiesAt(st, epoch).Keys, p)
      && DutyAt(st, epoch, v).att == expected && CountedVote(DutyAt(st, epoch, v), DutyAt(st, epoch - 1, v).att) == NO_ATT
  {
    hide Settled;
  }

  /** A validator that missed its vote and made the next one: its row mixes the two. */
  lemma RowMixesVotes(perIncrement: nat, p: Shares)
    ensures var voted := AttDuty(Some(true), Some(1), Some(true), Some(true), Some(true));
            var missed := NO_ATT.(happened := Some(false));
      Settled(NO_DUTY.(att := voted), missed, perIncrement, p).att == voted.(happened := Some(false))
  {
    hide RewardsFor;
  }

  /** A check from a cleared store leaves only records of those shapes. */
  lemma CheckedIsShaped(epoch: int, aggs: seq<Attestation.Aggregate>, prev: seq<Attestation.CommitteeInfo>,
                        curr: seq<Attestation.CommitteeInfo>, te: int, v: int)
    ensures Shaped(AttAt(Attestation.Checked(map[], epoch, aggs, prev, curr), te, v))
  {
    var st := Attestation.ExpectCommittees(Attestation.ExpectCommittees(map[], epoch - 1, prev), epoch, curr);
    FreshAfterExpect(epoch, prev, curr, te, v);
    RunKeepsShape(st, epoch, aggs, te, v);
  }

  lemma {:induction false} RunKeepsShape(st: Storage, epoch: int, aggs: seq<Attestation.Aggregate>, te: int, v: int)
    requires Shaped(AttAt(st, te, v))
    ensures Shaped(AttAt(Attestation.RunAll(st, epoch, aggs), te, v))
  {
    if aggs != [] {
      var init, agg := aggs[..|aggs| - 1], aggs[|aggs| - 1];
      RunKeepsShape(st, epoch, init, te, v);
      var mid := Attestation.RunAll(st, epoch, init);
      IncludeKeepsShape(Attestation.World(mid, NO_CREDIT), agg.targetEpoch, agg.members, agg.incDelay, agg.flags, te, v);
      CloseKeepsDuties(mid, epoch, agg, te, v);
    }
  }

  lemma {:induction false} IncludeKeepsShape(w: Attestation.World, te: int, vs: seq<int>, incDelay: int, flags: Flags, e: int, v: int)
    requires Shaped(AttAt(w.st, e, v))
    ensures Shaped(AttAt(Attestation.IncludeAll(w, te, vs, incDelay, flags).st, e, v))
  {
    if vs != [] {
      IncludeKeepsShape(w, te, vs[..|vs| - 1], incDelay, flags, e, v);
      var mid := Attestation.IncludeAll(w, te, vs[..|vs| - 1], incDelay, flags);
      IncludeOneEffect(mid, te, vs[|vs| - 1], incDelay, flags, e, v, SourceFlag);
    }
  }
}
