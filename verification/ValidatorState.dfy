/** The beacon state as the round sees it: each validator's status, the active stake, the base reward. */
module ValidatorState {
  import opened Constants
  import opened Arithmetic
  import opened Options
  import opened Summary
  import opened IntegerSqrt

  const BASE_REWARD_FACTOR := 64

  /** An epoch, or never. */
  datatype Epoch = At(n: int) | FarFuture
  {
    predicate Reached(current: int) {
      At? && n <= current
    }
  }

  datatype Validator = Validator(effectiveBalance: nat, balance: nat, slashed: bool, activationEligibility: Epoch,
                                 activation: Epoch, exit: Epoch, withdrawable: Epoch)

  function GetValidatorStatus(v: Validator, current: int): ValStatus {
    if !v.activation.Reached(current) then
      if v.activationEligibility.FarFuture? then PendingInitialized else PendingQueued
    else if !v.exit.Reached(current) then
      if v.exit.FarFuture? then ActiveOngoing else if v.slashed then ActiveSlashed else ActiveExiting
    else if !v.withdrawable.Reached(current) then
      if v.slashed then ExitedSlashed else ExitedUnslashed
    else if v.effectiveBalance != 0 then WithdrawalPossible else WithdrawalDone
  }

  /** The beacon API's definition of each status, for epochs in order. */
  predicate ApiStatus(v: Validator, epoch: int, s: ValStatus) {
    var active := v.activation.Reached(epoch) && !v.exit.Reached(epoch);
    var exited := v.exit.Reached(epoch) && !v.withdrawable.Reached(epoch);
    match s
    case PendingInitialized => !v.activation.Reached(epoch) && v.activationEligibility.FarFuture?
    case PendingQueued => !v.activation.Reached(epoch) && v.activationEligibility.At?
    case ActiveOngoing => active && v.exit.FarFuture?
    case ActiveExiting => active && v.exit.At? && !v.slashed
    case ActiveSlashed => active && v.exit.At? && v.slashed
    case ExitedUnslashed => exited && !v.slashed
    case ExitedSlashed => exited && v.slashed
    case WithdrawalPossible => v.withdrawable.Reached(epoch) && v.effectiveBalance > 0
    case WithdrawalDone => v.withdrawable.Reached(epoch) && v.effectiveBalance == 0
  }

  /** Activation comes before exit, and exit before the withdrawable epoch. */
  predicate InOrder(v: Validator, epoch: int) {
    (v.exit.Reached(epoch) ==> v.activation.Reached(epoch)) && (v.withdrawable.Reached(epoch) ==> v.exit.Reached(epoch))
  }

  /** Exactly one status fits a validator, and it is the one computed. */
  lemma StatusMatchesApi(v: Validator, epoch: int, s: ValStatus)
    requires InOrder(v, epoch)
    ensures GetValidatorStatus(v, epoch) == s <==> ApiStatus(v, epoch, s)
  {
    match s
    case PendingInitialized =>
    case PendingQueued =>
    case ActiveOngoing =>
    case ActiveExiting =>
    case ActiveSlashed =>
    case ExitedUnslashed =>
    case ExitedSlashed =>
    case WithdrawalPossible =>
    case WithdrawalDone =>
  }

  predicate CountsAsActive(s: ValStatus) {
    s in {ActiveOngoing, ActiveExiting, ActiveSlashed}
  }

  /** `is_active_validator` of the specification. */
  predicate SpecIsActive(v: Validator, epoch: int) {
    v.activation.Reached(epoch) && !v.exit.Reached(epoch)
  }

  lemma ActiveStatusIsActive(v: Validator, epoch: int)
    ensures CountsAsActive(GetValidatorStatus(v, epoch)) <==> SpecIsActive(v, epoch)
  {
  }

  function ActiveCount(vs: seq<Validator>, epoch: int): nat {
    if vs == [] then 0
    else ActiveCount(vs[..|vs| - 1], epoch) + if SpecIsActive(vs[|vs| - 1], epoch) then 1 else 0
  }

  ghost function ActiveIn(vs: seq<Validator>, epoch: int): set<int> {
    set i | 0 <= i < |vs| && SpecIsActive(vs[i], epoch)
  }

  /** The count is the number of active validators. */
  lemma {:induction false} ActiveCountIs(vs: seq<Validator>, epoch: int)
    ensures ActiveCount(vs, epoch) == |ActiveIn(vs, epoch)|
  {
    if vs == [] {
      assert ActiveIn(vs, epoch) == {};
    } else {
      var init, last := vs[..|vs| - 1], vs[|vs| - 1];
      ActiveCountIs(init, epoch);
      assert ActiveIn(vs, epoch) == ActiveIn(init, epoch) + if SpecIsActive(last, epoch) then {|vs| - 1} else {};
    }
  }

  /** Whole increments of the active validators, each rounded down on its own. */
  function ActiveIncrements(vs: seq<Validator>, epoch: int): nat {
    if vs == [] then 0
    else ActiveIncrements(vs[..|vs| - 1], epoch)
         + if SpecIsActive(vs[|vs| - 1], epoch) then vs[|vs| - 1].effectiveBalance / GWEI_PER_INCREMENT else 0
  }

  function ActiveBalance(vs: seq<Validator>, epoch: int): nat {
    if vs == [] then 0
    else ActiveBalance(vs[..|vs| - 1], epoch) + if SpecIsActive(vs[|vs| - 1], epoch) then vs[|vs| - 1].effectiveBalance else 0
  }

  lemma SqrtPositive(n: nat)
    ensures Sqrt(n) > 0 <==> n > 0
  {
    if n > 0 {
      SqrtMonotone(1, n);
      SqrtUnique(1, 1);
    }
  }

  /** `x` over the square root of a positive total. */
  ghost function OverRoot(x: nat, total: nat): nat
    requires total > 0
  {
    SqrtPositive(total);
    Division(x, Sqrt(total));
    x / Sqrt(total)
  }

  /** Base reward per increment, from the active increments; they must not be zero. */
  ghost function BaseReward(increments: nat): nat
    requires increments > 0
  {
    OverRoot(BASE_REWARD_FACTOR * GWEI_PER_INCREMENT, increments * GWEI_PER_INCREMENT)
  }

  /** `get_base_reward_per_increment` of the Altair beacon-chain specification, with its `get_total_active_balance`. */
  ghost function SpecBaseRewardPerIncrement(vs: seq<Validator>, epoch: int): nat {
    var sum := ActiveBalance(vs, epoch);
    OverRoot(GWEI_PER_INCREMENT * BASE_REWARD_FACTOR, if sum > GWEI_PER_INCREMENT then sum else GWEI_PER_INCREMENT)
  }

  predicate WholeIncrements(vs: seq<Validator>) {
    forall i :: 0 <= i < |vs| ==> vs[i].effectiveBalance % GWEI_PER_INCREMENT == 0
  }

  lemma {:induction false} WholeIncrementsAddUp(vs: seq<Validator>, epoch: int)
    requires WholeIncrements(vs)
    ensures ActiveIncrements(vs, epoch) * GWEI_PER_INCREMENT == ActiveBalance(vs, epoch)
  {
    if vs != [] {
      WholeIncrementsAddUp(vs[..|vs| - 1], epoch);
      assert vs[|vs| - 1].effectiveBalance % GWEI_PER_INCREMENT == 0;
    }
  }

  /** With some active stake, and effective balances in whole increments as the chain keeps them, the base
      reward is that of the specification. */
  lemma BaseRewardMatchesSpec(vs: seq<Validator>, epoch: int)
    requires WholeIncrements(vs) && ActiveIncrements(vs, epoch) > 0
    ensures BaseReward(ActiveIncrements(vs, epoch)) == SpecBaseRewardPerIncrement(vs, epoch)
  {
    WholeIncrementsAddUp(vs, epoch);
  }

  /** More stake never means a higher base reward. */
  lemma BaseRewardFalls(a: nat, b: nat)
    requires 0 < a <= b
    ensures BaseReward(b) <= BaseReward(a)
  {
    SqrtMonotone(a * GWEI_PER_INCREMENT, b * GWEI_PER_INCREMENT);
    SqrtPositive(a * GWEI_PER_INCREMENT);
    QuotientFalls(BASE_REWARD_FACTOR * GWEI_PER_INCREMENT, Sqrt(a * GWEI_PER_INCREMENT), Sqrt(b * GWEI_PER_INCREMENT));
  }

  lemma QuotientFalls(x: nat, d: nat, e: nat)
    requires 0 < d <= e
    ensures x / e <= x / d
  {
    Division(x, e);
    Division(x, d);
    QuotientsOrdered(x, d, e, x / e, x / d);
  }

  lemma QuotientsOrdered(x: int, d: int, e: int, q: int, r: int)
    requires 0 < d <= e && e * q <= x < d * r + d && 0 <= q
    ensures q <= r
  {
    assert d * q <= e * q;
    assert d * (r + 1) == d * r + d;
    LessByProducts(d, q, r + 1);
  }

  // ---- the service -----------------------------------------------------------------------------

  function StatePatch(v: Validator, epoch: int): Duty {
    NO_DUTY.(state := StateDuty(Some(v.slashed), Some(GetValidatorStatus(v, epoch)), Some(v.balance), Some(v.effectiveBalance)))
  }

  function SetState(st: Storage, epoch: int, index: int, v: Validator): Storage {
    PatchDuty(st, epoch, index, StatePatch(v, epoch))
  }

  function SetStates(st: Storage, epoch: int, vs: seq<Validator>): Storage {
    if vs == [] then st else SetState(SetStates(st, epoch, vs[..|vs| - 1]), epoch, |vs| - 1, vs[|vs| - 1])
  }

  lemma SetStateEffect(st: Storage, epoch: int, index: int, v: Validator, e: int, u: int)
    ensures DutyAt(SetState(st, epoch, index, v), e, u)
         == if (e, u) == (epoch, index)
            then DutyAt(st, e, u).(state := StateDuty(Some(v.slashed), Some(GetValidatorStatus(v, epoch)), Some(v.balance), Some(v.effectiveBalance)))
            else DutyAt(st, e, u)
  {
    hide GetValidatorStatus;
  }

  /** Every validator of the state has its own fields recorded under its index, and nothing else is touched. */
  lemma {:induction false} StatesMeaning(st: Storage, epoch: int, vs: seq<Validator>, e: int, u: int)
    ensures var d, d' := DutyAt(st, e, u), DutyAt(SetStates(st, epoch, vs), e, u);
      d' == if e == epoch && 0 <= u < |vs|
            then d.(state := StateDuty(Some(vs[u].slashed), Some(GetValidatorStatus(vs[u], epoch)), Some(vs[u].balance), Some(vs[u].effectiveBalance)))
            else d
  {
    if vs != [] {
      hide SetState, GetValidatorStatus, DutyAt;
      var init, last := vs[..|vs| - 1], vs[|vs| - 1];
      StatesMeaning(st, epoch, init, e, u);
      SetStateEffect(SetStates(st, epoch, init), epoch, |vs| - 1, last, e, u);
    }
  }

  ghost function StateChecked(st: Storage, epoch: int, vs: seq<Validator>): Storage
    requires ActiveIncrements(vs, epoch) > 0
  {
    var increments := ActiveIncrements(vs, epoch);
    PatchMeta(SetStates(st, epoch, vs), epoch, MetaPatch(Some(StateMeta(ActiveCount(vs, epoch), increments, BaseReward(increments))), None, None))
  }

  class StateService {
    const summary: SummaryService

    constructor (summary: SummaryService)
      ensures this.summary == summary
    {
      this.summary := summary;
    }

    /** Fails exactly when nobody active holds a whole increment: the division by the root then throws. */
    method Check(epoch: int, validators: seq<Validator>) returns (ok: bool)
      modifies summary
      ensures ok <==> ActiveIncrements(validators, epoch) > 0
      ensures ok ==> summary.storage == StateChecked(old(summary.storage), epoch, validators)
    {
      var activeValidatorsCount, activeIncrements := CheckValidators(epoch, validators);
      hide IsSqrt, Sqrt;
      var root := BigNumberSqrt(activeIncrements * GWEI_PER_INCREMENT);
      SqrtUnique(activeIncrements * GWEI_PER_INCREMENT, root);
      SqrtPositive(activeIncrements * GWEI_PER_INCREMENT);
      ok := root != 0;
      if !ok {
        return;
      }
      Division(BASE_REWARD_FACTOR * GWEI_PER_INCREMENT, root);
      var baseReward := BASE_REWARD_FACTOR * GWEI_PER_INCREMENT / root;
      summary.SetMeta(epoch, MetaPatch(Some(StateMeta(activeValidatorsCount, activeIncrements, baseReward)), None, None));
    }

    method CheckValidators(epoch: int, validators: seq<Validator>) returns (count: nat, increments: nat)
      modifies summary
      ensures summary.storage == SetStates(old(summary.storage), epoch, validators)
      ensures count == ActiveCount(validators, epoch) && increments == ActiveIncrements(validators, epoch)
    {
      count, increments := 0, 0;
      hide SetState;
      for index := 0 to |validators|
        invariant summary.storage == SetStates(old(summary.storage), epoch, validators[..index])
        invariant count == ActiveCount(validators[..index], epoch) && increments == ActiveIncrements(validators[..index], epoch)
      {
        assert validators[..index + 1][..index] == validators[..index];
        var validator := validators[index];
        CheckValidator(epoch, index, validator);
        ActiveStatusIsActive(validator, epoch);
        if CountsAsActive(GetValidatorStatus(validator, epoch)) {
          count := count + 1;
          increments := increments + validator.effectiveBalance / GWEI_PER_INCREMENT;
        }
      }
      assert validators[..|validators|] == validators;
    }

    method CheckValidator(epoch: int, index: int, validator: Validator)
      modifies summary
      ensures summary.storage == SetState(old(summary.storage), epoch, index, validator)
    {
      summary.Set(epoch, index, StatePatch(validator, epoch));
    }
  }
}
