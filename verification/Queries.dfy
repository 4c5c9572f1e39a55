/** Two of the database queries as relational functions over the rows of the summary table, which may hold any row
    more than once. */
module Queries {
  import opened Options
  import opened Sums
  import opened Summary

  datatype Operator = Operator(moduleId: int, id: int)

  /** A stored row; None stands for NULL. */
  datatype Row = Row(epoch: int, valId: int, operator: Option<Operator>, status: Option<ValStatus>,
                     slashed: Option<bool>, balance: Option<nat>, stuck: bool, att: AttDuty)

  // ---- the relational operations ---------------------------------------------------------------

  /** `count()` under a condition. */
  function Count<R>(rows: seq<R>, p: R -> bool): nat {
    if rows == [] then 0 else Count(rows[..|rows| - 1], p) + if p(rows[|rows| - 1]) then 1 else 0
  }

  ghost predicate Covered<R, K>(out: seq<R>, key: R -> K, k: K) {
    exists i :: 0 <= i < |out| && key(out[i]) == k
  }

  /** `LIMIT 1 BY key`: one of the rows for every key, no matter which. */
  ghost predicate OnePer<R(!new), K(!new)>(rows: seq<R>, out: seq<R>, key: R -> K) {
    && (forall r :: r in out ==> r in rows)
    && (forall r :: r in rows ==> Covered(out, key, key(r)))
    && forall i, j :: 0 <= i < j < |out| ==> key(out[i]) != key(out[j])
  }

  // ---- N epochs in a row -----------------------------------------------------------------------

  /** The parameters of the query: the last epoch, how many epochs, the validators asked for (all, if none are named)
      and the condition. */
  datatype Params = Params(epoch: int, epochInterval: nat, validators: set<int>, condition: Row -> bool)

  ghost predicate Selected(q: Params, r: Row) {
    && q.condition(r) && !r.stuck
    && q.epoch - q.epochInterval < r.epoch <= q.epoch
    && (q.validators == {} || r.valId in q.validators)
  }

  ghost predicate IsWhere(rows: seq<Row>, q: Params, selected: seq<Row>) {
    forall r :: r in selected <==> r in rows && Selected(q, r)
  }

  function EpochAndValidator(): Row -> (int, int) {
    (r: Row) => (r.epoch, r.valId)
  }

  function InGroup(v: int, operator: Option<Operator>): Row -> bool {
    (r: Row) => r.valId == v && r.operator == operator
  }

  ghost function Validators(rows: seq<Row>): set<int> {
    set r | r in rows :: r.valId
  }

  /** The two nested groupings: of the deduplicated rows, count per validator and operator, keep the groups with as
      many rows as there are epochs, and count those of an operator. */
  ghost function Amount(deduped: seq<Row>, q: Params, operator: Option<Operator>): nat {
    |set v | v in Validators(deduped) && Count(deduped, InGroup(v, operator)) == q.epochInterval|
  }

  ghost predicate FailsIn(rows: seq<Row>, q: Params, v: int, operator: Option<Operator>, e: int) {
    exists r :: r in rows && r.epoch == e && r.valId == v && r.operator == operator && Selected(q, r)
  }

  /** The condition holds of the validator in every one of the epochs. */
  ghost predicate FailsInAll(rows: seq<Row>, q: Params, v: int, operator: Option<Operator>) {
    forall e :: q.epoch - q.epochInterval < e <= q.epoch ==> FailsIn(rows, q, v, operator, e)
  }

  ghost predicate ConstantOperators(rows: seq<Row>) {
    forall r, r' :: r in rows && r' in rows && r.valId == r'.valId ==> r.operator == r'.operator
  }

  ghost function Epochs(last: int, n: nat): set<int>
    decreases n
  {
    if n == 0 then {} else Epochs(last - 1, n - 1) + {last}
  }

  lemma {:induction false} EpochsAre(last: int, n: nat)
    ensures |Epochs(last, n)| == n && forall e :: e in Epochs(last, n) <==> last - n < e <= last
    decreases n
  {
    if n > 0 {
      EpochsAre(last - 1, n - 1);
    }
  }

  ghost function EpochsOf(rows: seq<Row>, v: int, operator: Option<Operator>): set<int> {
    set r | r in rows && InGroup(v, operator)(r) :: r.epoch
  }

  ghost predicate DistinctKeys(d: seq<Row>) {
    forall i, j :: 0 <= i < j < |d| ==> EpochAndValidator()(d[i]) != EpochAndValidator()(d[j])
  }

  lemma DistinctKeysInit(init: seq<Row>, last: Row)
    requires DistinctKeys(init + [last])
    ensures DistinctKeys(init)
  {
    assert forall i :: 0 <= i < |init| ==> (init + [last])[i] == init[i];
  }

  /** No two deduplicated rows of a validator share an epoch, so counting rows is counting epochs. */
  lemma {:induction false} CountIsEpochs(d: seq<Row>, v: int, operator: Option<Operator>)
    requires DistinctKeys(d)
    ensures Count(d, InGroup(v, operator)) == |EpochsOf(d, v, operator)|
  {
    if d == [] {
      assert EpochsOf(d, v, operator) == {};
    } else {
      var init, last := d[..|d| - 1], d[|d| - 1];
      assert d == init + [last];
      DistinctKeysInit(init, last);
      hide EpochsOf, DistinctKeys, InGroup;
      CountIsEpochs(init, v, operator);
      EpochsSnoc(init, last, v, operator);
    }
  }

  lemma NewEpoch(init: seq<Row>, last: Row, v: int, operator: Option<Operator>)
    requires DistinctKeys(init + [last]) && InGroup(v, operator)(last)
    ensures last.epoch !in EpochsOf(init, v, operator)
  {
    var d := init + [last];
    forall r | r in init && InGroup(v, operator)(r)
      ensures r.epoch != last.epoch
    {
      var i :| 0 <= i < |init| && init[i] == r;
      assert d[i] == r && d[|init|] == last;
    }
  }

  lemma EpochsWith(init: seq<Row>, last: Row, v: int, operator: Option<Operator>)
    ensures EpochsOf(init + [last], v, operator) == EpochsOf(init, v, operator) + if InGroup(v, operator)(last) then {last.epoch} else {}
  {
    assert forall r :: r in init + [last] <==> r in init || r == last;
    hide InGroup;
  }

  lemma EpochsSnoc(init: seq<Row>, last: Row, v: int, operator: Option<Operator>)
    requires DistinctKeys(init + [last])
    ensures |EpochsOf(init + [last], v, operator)| == |EpochsOf(init, v, operator)| + if InGroup(v, operator)(last) then 1 else 0
  {
    hide EpochsOf, DistinctKeys, InGroup;
    EpochsWith(init, last, v, operator);
    if InGroup(v, operator)(last) {
      NewEpoch(init, last, v, operator);
    }
  }

  lemma SubsetOfSameSize<T>(a: set<T>, b: set<T>)
    requires a <= b
    ensures |a| == |b| <==> a == b
    ensures |a| <= |b|
  {
    assert b == a + (b - a);
    assert |b| == |a| + |b - a|;
  }

  /** The query's answer for an operator is the number of its validators that meet the condition in every one of the
      last N epochs, whatever duplicates the table holds and whichever of them the query keeps. */
  lemma AmountIsFailingInAll(rows: seq<Row>, selected: seq<Row>, deduped: seq<Row>, q: Params, operator: Option<Operator>)
    requires q.epochInterval >= 1
    requires IsWhere(rows, q, selected) && OnePer(selected, deduped, EpochAndValidator()) && ConstantOperators(selected)
    ensures Amount(deduped, q, operator) == |set v | v in Validators(rows) && FailsInAll(rows, q, v, operator)|
  {
    forall v
      ensures (v in Validators(deduped) && Count(deduped, InGroup(v, operator)) == q.epochInterval)
         <==> (v in Validators(rows) && FailsInAll(rows, q, v, operator))
    {
      CountIsEpochs(deduped, v, operator);
      EpochsAre(q.epoch, q.epochInterval);
      EpochsInWindow(rows, selected, deduped, q, v, operator);
      SubsetOfSameSize(EpochsOf(deduped, v, operator), Epochs(q.epoch, q.epochInterval));
      FailingIsCounted(rows, selected, deduped, q, v, operator);
    }
    assert (set v | v in Validators(deduped) && Count(deduped, InGroup(v, operator)) == q.epochInterval)
        == (set v | v in Validators(rows) && FailsInAll(rows, q, v, operator));
  }

  lemma EpochsInWindow(rows: seq<Row>, selected: seq<Row>, deduped: seq<Row>, q: Params, v: int, operator: Option<Operator>)
    requires IsWhere(rows, q, selected) && OnePer(selected, deduped, EpochAndValidator())
    ensures EpochsOf(deduped, v, operator) <= Epochs(q.epoch, q.epochInterval)
  {
    EpochsAre(q.epoch, q.epochInterval);
    forall r | r in deduped
      ensures q.epoch - q.epochInterval < r.epoch <= q.epoch
    {
      assert r in selected;
    }
  }

  /** An epoch is counted for a validator exactly if the condition held in it. */
  lemma CountedIsFailing(rows: seq<Row>, selected: seq<Row>, deduped: seq<Row>, q: Params, v: int, operator: Option<Operator>, e: int)
    requires IsWhere(rows, q, selected) && OnePer(selected, deduped, EpochAndValidator()) && ConstantOperators(selected)
    ensures e in EpochsOf(deduped, v, operator) <==> FailsIn(rows, q, v, operator, e)
  {
    if e in EpochsOf(deduped, v, operator) {
      var r :| r in deduped && InGroup(v, operator)(r) && r.epoch == e;
      assert r in selected;
    }
    if FailsIn(rows, q, v, operator, e) {
      var r :| r in rows && r.epoch == e && r.valId == v && r.operator == operator && Selected(q, r);
      assert r in selected;
      assert Covered(deduped, EpochAndValidator(), EpochAndValidator()(r));
      var i :| 0 <= i < |deduped| && EpochAndValidator()(deduped[i]) == EpochAndValidator()(r);
      assert deduped[i] in selected;
      assert InGroup(v, operator)(deduped[i]);
    }
  }

  lemma FailingIsCounted(rows: seq<Row>, selected: seq<Row>, deduped: seq<Row>, q: Params, v: int, operator: Option<Operator>)
    requires q.epochInterval >= 1
    requires IsWhere(rows, q, selected) && OnePer(selected, deduped, EpochAndValidator()) && ConstantOperators(selected)
    ensures EpochsOf(deduped, v, operator) == Epochs(q.epoch, q.epochInterval) <==> FailsInAll(rows, q, v, operator)
    ensures FailsInAll(rows, q, v, operator) ==> v in Validators(deduped) && v in Validators(rows)
  {
    EpochsAre(q.epoch, q.epochInterval);
    EpochsInWindow(rows, selected, deduped, q, v, operator);
    var counted := EpochsOf(deduped, v, operator);
    forall e | FailsInAll(rows, q, v, operator) && e in Epochs(q.epoch, q.epochInterval)
      ensures e in counted
    {
      assert FailsIn(rows, q, v, operator, e);
      CountedIsFailing(rows, selected, deduped, q, v, operator, e);
    }
    forall e | counted == Epochs(q.epoch, q.epochInterval) && q.epoch - q.epochInterval < e <= q.epoch
      ensures FailsIn(rows, q, v, operator, e)
    {
      assert e in counted;
      CountedIsFailing(rows, selected, deduped, q, v, operator, e);
    }
    if FailsInAll(rows, q, v, operator) {
      assert FailsIn(rows, q, v, operator, q.epoch);
      assert q.epoch in Epochs(q.epoch, q.epochInterval);
    }
  }

  // ---- validators by status --------------------------------------------------------------------

  /** What the inner query groups by. */
  datatype Group = Group(operator: Option<Operator>, status: Option<ValStatus>, slashed: Option<bool>, balance: Option<nat>, stuck: bool)

  datatype Column = ActiveOngoingColumn | PendingColumn | SlashedColumn | WithdrawPendingColumn | WithdrawnColumn | StuckColumn

  function GroupOf(r: Row): Group {
    Group(r.operator, r.status, r.slashed, r.balance, r.stuck)
  }

  /** Which groups a column counts. A comparison with NULL is not true, and `count(x)` skips rows where x is NULL. */
  predicate InColumn(c: Column, g: Group) {
    match c
    case ActiveOngoingColumn => g.status == Some(ActiveOngoing)
    case PendingColumn => g.status == Some(PendingQueued) || g.status == Some(PendingInitialized)
    case SlashedColumn => g.status.Some? && (g.status.value == ActiveSlashed || g.status.value == ExitedSlashed || g.slashed == Some(true))
    case WithdrawPendingColumn =>
      || g.status == Some(ActiveExiting) || g.status == Some(ExitedUnslashed) || g.status == Some(ExitedSlashed)
      || (g.status == Some(WithdrawalPossible) && g.balance.Some? && g.balance.value != 0)
    case WithdrawnColumn =>
      || g.status == Some(WithdrawalDone)
      || (g.status == Some(WithdrawalPossible) && g.balance == Some(0))
    case StuckColumn => g.stuck
  }

  /** The columns a group counts in, by status. */
  function ColumnsOf(g: Group): set<Column> {
    (match g.status
     case None => {}
     case Some(PendingInitialized) => {PendingColumn}
     case Some(PendingQueued) => {PendingColumn}
     case Some(ActiveOngoing) => {ActiveOngoingColumn}
     case Some(ActiveExiting) => {WithdrawPendingColumn}
     case Some(ActiveSlashed) => {SlashedColumn}
     case Some(ExitedUnslashed) => {WithdrawPendingColumn}
     case Some(ExitedSlashed) => {WithdrawPendingColumn, SlashedColumn}
     case Some(WithdrawalPossible) => if g.balance.None? then {} else if g.balance.value == 0 then {WithdrawnColumn} else {WithdrawPendingColumn}
     case Some(WithdrawalDone) => {WithdrawnColumn})
    + (if g.status.Some? && g.slashed == Some(true) then {SlashedColumn} else {}) + (if g.stuck then {StuckColumn} else {})
  }

  lemma ColumnsByStatus(g: Group, c: Column)
    ensures InColumn(c, g) <==> c in ColumnsOf(g)
  {
    match g.status
    case None =>
    case Some(s) =>
      match s
      case PendingInitialized =>
      case PendingQueued =>
      case ActiveOngoing =>
      case ActiveExiting =>
      case ActiveSlashed =>
      case ExitedUnslashed =>
      case ExitedSlashed =>
      case WithdrawalPossible =>
      case WithdrawalDone =>
  }

  function InGroupOf(g: Group): Row -> bool {
    (r: Row) => GroupOf(r) == g
  }

  /** The inner column of a group: its size, or 0. */
  function GroupCount(rows: seq<Row>, c: Column): Group -> int {
    (g: Group) => if InColumn(c, g) then Count(rows, InGroupOf(g)) else 0
  }

  ghost function GroupsOf(rows: seq<Row>, operator: Operator): set<Group> {
    set r | r in rows && r.operator == Some(operator) :: GroupOf(r)
  }

  /** The outer column: the sum over the operator's groups. */
  ghost function ColumnSum(rows: seq<Row>, operator: Operator, c: Column): int {
    SumSet(GroupsOf(rows, operator), GroupCount(rows, c))
  }

  function OperatorIn(operator: Operator, c: Column): Row -> bool {
    (r: Row) => r.operator == Some(operator) && InColumn(c, GroupOf(r))
  }

  /** Summing group sizes is counting rows. */
  lemma {:induction false} GroupsAddUp(rows: seq<Row>, groups: set<Group>, operator: Operator, c: Column)
    requires forall r :: r in rows && r.operator == Some(operator) ==> GroupOf(r) in groups
    requires forall g :: g in groups ==> g.operator == Some(operator)
    ensures SumSet(groups, GroupCount(rows, c)) == Count(rows, OperatorIn(operator, c))
  {
    if rows == [] {
      forall g | g in groups
        ensures GroupCount(rows, c)(g) == 0
      {
      }
      SumSetZero(groups, GroupCount(rows, c));
    } else {
      var init, last := rows[..|rows| - 1], rows[|rows| - 1];
      GroupsAddUp(init, groups, operator, c);
      OneRowMore(rows, groups, operator, c);
      hide SumSet, InColumn, GroupCount;
    }
  }

  lemma OneRowMore(rows: seq<Row>, groups: set<Group>, operator: Operator, c: Column)
    requires rows != [] && (rows[|rows| - 1].operator == Some(operator) ==> GroupOf(rows[|rows| - 1]) in groups)
    requires forall g :: g in groups ==> g.operator == Some(operator)
    ensures SumSet(groups, GroupCount(rows, c)) == SumSet(groups, GroupCount(rows[..|rows| - 1], c))
                                                   + if OperatorIn(operator, c)(rows[|rows| - 1]) then 1 else 0
  {
    var init, last := rows[..|rows| - 1], rows[|rows| - 1];
    hide InColumn, SumSet;
    if last.operator == Some(operator) {
      forall g | g in groups && g != GroupOf(last)
        ensures GroupCount(init, c)(g) == GroupCount(rows, c)(g)
      {
      }
      SumSetUpdate(groups, GroupOf(last), GroupCount(init, c), GroupCount(rows, c));
    } else {
      forall g | g in groups
        ensures GroupCount(init, c)(g) == GroupCount(rows, c)(g)
      {
      }
      SumSetCongruent(groups, GroupCount(init, c), GroupCount(rows, c));
    }
  }

  /** Every column of the two-level query is a plain count of the operator's rows. */
  lemma ColumnsCountRows(rows: seq<Row>, operator: Operator, c: Column)
    ensures ColumnSum(rows, operator, c) == Count(rows, OperatorIn(operator, c))
  {
    GroupsAddUp(rows, GroupsOf(rows, operator), operator, c);
  }

  function OfOperator(operator: Operator): Row -> bool {
    (r: Row) => r.operator == Some(operator)
  }

  function ActiveSlashedOf(operator: Operator): Row -> bool {
    (r: Row) => r.operator == Some(operator) && r.status == Some(ActiveSlashed)
  }

  /** Rows the columns cannot place: no status, or a possible withdrawal of an unknown balance. */
  function Unplaced(operator: Operator): Row -> bool {
    (r: Row) => r.operator == Some(operator) && (r.status.None? || (r.status == Some(WithdrawalPossible) && r.balance.None?))
  }

  function Once(b: bool): nat {
    if b then 1 else 0
  }

  lemma RowIsPlacedOnce(r: Row, operator: Operator)
    ensures Once(OperatorIn(operator, ActiveOngoingColumn)(r)) + Once(OperatorIn(operator, PendingColumn)(r))
            + Once(OperatorIn(operator, WithdrawPendingColumn)(r)) + Once(OperatorIn(operator, WithdrawnColumn)(r))
            + Once(ActiveSlashedOf(operator)(r)) + Once(Unplaced(operator)(r))
         == Once(OfOperator(operator)(r))
  {
    match r.status
    case Some(PendingInitialized) =>
    case Some(PendingQueued) =>
    case Some(ActiveOngoing) =>
    case Some(ActiveExiting) =>
    case Some(ActiveSlashed) =>
    case Some(ExitedUnslashed) =>
    case Some(ExitedSlashed) =>
    case Some(WithdrawalPossible) =>
    case Some(WithdrawalDone) =>
    case None =>
  }

  lemma {:induction false} RowsPartition(rows: seq<Row>, operator: Operator)
    ensures Count(rows, OperatorIn(operator, ActiveOngoingColumn)) + Count(rows, OperatorIn(operator, PendingColumn))
            + Count(rows, OperatorIn(operator, WithdrawPendingColumn)) + Count(rows, OperatorIn(operator, WithdrawnColumn))
            + Count(rows, ActiveSlashedOf(operator)) + Count(rows, Unplaced(operator))
         == Count(rows, OfOperator(operator))
  {
    if rows != [] {
      RowsPartition(rows[..|rows| - 1], operator);
      RowIsPlacedOnce(rows[|rows| - 1], operator);
      hide OperatorIn, ActiveSlashedOf, Unplaced, OfOperator;
    }
  }

  /** Of an operator's rows, one per validator, every one is active, pending, about to withdraw, withdrawn or
      slashed while active, and none is two of these. */
  lemma StatusesAddUp(rows: seq<Row>, operator: Operator)
    ensures ColumnSum(rows, operator, ActiveOngoingColumn) + ColumnSum(rows, operator, PendingColumn)
            + ColumnSum(rows, operator, WithdrawPendingColumn) + ColumnSum(rows, operator, WithdrawnColumn)
            + Count(rows, ActiveSlashedOf(operator)) + Count(rows, Unplaced(operator))
         == Count(rows, OfOperator(operator))
  {
    ColumnsCountRows(rows, operator, ActiveOngoingColumn);
    ColumnsCountRows(rows, operator, PendingColumn);
    ColumnsCountRows(rows, operator, WithdrawPendingColumn);
    ColumnsCountRows(rows, operator, WithdrawnColumn);
    RowsPartition(rows, operator);
    hide ColumnSum, Count;
  }

  /** The rows of one epoch with an operator, one per validator. */
  function ValidatorOf(): Row -> int {
    (r: Row) => r.valId
  }

  ghost predicate IsEpochStats(rows: seq<Row>, epoch: int, selected: seq<Row>, deduped: seq<Row>) {
    && (forall r :: r in selected <==> r in rows && r.operator.Some? && r.epoch == epoch)
    && OnePer(selected, deduped, ValidatorOf())
  }

  ghost function ValidatorsOf(rows: seq<Row>, epoch: int, operator: Operator): set<int> {
    set r | r in rows && r.epoch == epoch && r.operator == Some(operator) :: r.valId
  }

  /** Each validator of the operator is counted once, however often its row was written. */
  lemma RowsAreValidators(rows: seq<Row>, epoch: int, selected: seq<Row>, deduped: seq<Row>, operator: Operator)
    requires IsEpochStats(rows, epoch, selected, deduped)
    requires forall r, r' :: r in selected && r' in selected && r.valId == r'.valId ==> r.operator == r'.operator
    ensures Count(deduped, OfOperator(operator)) == |ValidatorsOf(rows, epoch, operator)|
  {
    CountDistinct(deduped, operator);
    forall v
      ensures v in IdsOf(deduped, operator) <==> v in ValidatorsOf(rows, epoch, operator)
    {
      if v in ValidatorsOf(rows, epoch, operator) {
        var r :| r in rows && r.epoch == epoch && r.operator == Some(operator) && r.valId == v;
        assert r in selected;
        assert Covered(deduped, ValidatorOf(), ValidatorOf()(r));
        var i :| 0 <= i < |deduped| && ValidatorOf()(deduped[i]) == v;
        assert deduped[i] in selected;
      }
    }
    assert IdsOf(deduped, operator) == ValidatorsOf(rows, epoch, operator);
  }

  ghost function IdsOf(d: seq<Row>, operator: Operator): set<int> {
    set r | r in d && OfOperator(operator)(r) :: r.valId
  }

  ghost predicate DistinctIds(d: seq<Row>) {
    forall i, j :: 0 <= i < j < |d| ==> ValidatorOf()(d[i]) != ValidatorOf()(d[j])
  }

  lemma DistinctInit(init: seq<Row>, last: Row)
    requires DistinctIds(init + [last])
    ensures DistinctIds(init)
  {
    assert forall i :: 0 <= i < |init| ==> (init + [last])[i] == init[i];
  }

  lemma {:induction false} CountDistinct(d: seq<Row>, operator: Operator)
    requires DistinctIds(d)
    ensures Count(d, OfOperator(operator)) == |IdsOf(d, operator)|
  {
    if d == [] {
      assert IdsOf(d, operator) == {};
    } else {
      var init, last := d[..|d| - 1], d[|d| - 1];
      assert d == init + [last];
      DistinctInit(init, last);
      hide IdsOf, DistinctIds, OfOperator;
      CountDistinct(init, operator);
      IdsWith(init, last, operator);
      NewId(init, last, operator);
    }
  }

  lemma IdsWith(init: seq<Row>, last: Row, operator: Operator)
    ensures IdsOf(init + [last], operator) == IdsOf(init, operator) + if OfOperator(operator)(last) then {last.valId} else {}
  {
    assert forall r :: r in init + [last] <==> r in init || r == last;
    hide OfOperator;
  }

  lemma NewId(init: seq<Row>, last: Row, operator: Operator)
    requires DistinctIds(init + [last])
    ensures last.valId !in IdsOf(init, operator)
  {
    var d := init + [last];
    forall r | r in init
      ensures r.valId != last.valId
    {
      var i :| 0 <= i < |init| && init[i] == r;
      assert d[i] == r && d[|init|] == last;
      assert ValidatorOf()(d[i]) != ValidatorOf()(d[|init|]);
    }
  }
}
