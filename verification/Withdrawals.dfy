/** Withdrawals: the amounts in the blocks of an epoch are added up per validator. */
module Withdrawals {
  import opened Options
  import opened Sums
  import opened Summary

  datatype Withdrawal = Withdrawal(validator: int, amount: nat)

  function Withdraw(st: Storage, epoch: int, validator: int, amount: nat): Storage {
    PatchDuty(st, epoch, validator, NO_DUTY.(withdrawn := Some(DutyAt(st, epoch, validator).withdrawn.GetOr(0) + amount)))
  }

  function WithdrawAll(st: Storage, epoch: int, ws: seq<Withdrawal>): Storage {
    if ws == [] then st
    else Withdraw(WithdrawAll(st, epoch, ws[..|ws| - 1]), epoch, ws[|ws| - 1].validator, ws[|ws| - 1].amount)
  }

  /** The withdrawals of the blocks, in block order. A block without the field has none. */
  function InBlocks(blocks: seq<Option<seq<Withdrawal>>>): seq<Withdrawal> {
    if blocks == [] then [] else InBlocks(blocks[..|blocks| - 1]) + blocks[|blocks| - 1].GetOr([])
  }

  class WithdrawalsService {
    const summary: SummaryService

    constructor (summary: SummaryService)
      ensures this.summary == summary
    {
      this.summary := summary;
    }

    method Check(epoch: int, blocks: seq<Option<seq<Withdrawal>>>)
      modifies summary
      ensures summary.storage == WithdrawAll(old(summary.storage), epoch, InBlocks(blocks))
    {
      for b := 0 to |blocks|
        invariant summary.storage == WithdrawAll(old(summary.storage), epoch, InBlocks(blocks[..b]))
      {
        assert blocks[..b + 1][..b] == blocks[..b];
        CheckBlock(epoch, blocks[b], old(summary.storage), InBlocks(blocks[..b]));
      }
      assert blocks[..|blocks|] == blocks;
    }

    method CheckBlock(epoch: int, block: Option<seq<Withdrawal>>, ghost st: Storage, ghost before: seq<Withdrawal>)
      requires summary.storage == WithdrawAll(st, epoch, before)
      modifies summary
      ensures summary.storage == WithdrawAll(st, epoch, before + block.GetOr([]))
    {
      var withdrawals := block.GetOr([]);
      assert before + [] == before;
      hide WithdrawAll, Withdraw;
      for i := 0 to |withdrawals|
        invariant summary.storage == WithdrawAll(st, epoch, before + withdrawals[..i])
      {
        assert before + withdrawals[..i + 1] == before + withdrawals[..i] + [withdrawals[i]];
        WithdrawSnoc(st, epoch, before + withdrawals[..i], withdrawals[i]);
        WithdrawOne(epoch, withdrawals[i].validator, withdrawals[i].amount);
      }
      assert withdrawals[..|withdrawals|] == withdrawals;
    }

    method WithdrawOne(epoch: int, valId: int, amount: nat)
      modifies summary
      ensures summary.storage == Withdraw(old(summary.storage), epoch, valId, amount)
    {
      var d := summary.Get(epoch, valId);
      var valBalanceWithdrawn := if d.Some? then d.value.withdrawn.GetOr(0) else 0;
      summary.Set(epoch, valId, NO_DUTY.(withdrawn := Some(valBalanceWithdrawn + amount)));
      assert Touch(old(summary.storage), epoch)[epoch := InfoAt(old(summary.storage), epoch)] == Touch(old(summary.storage), epoch);
    }
  }

  lemma WithdrawSnoc(st: Storage, epoch: int, ws: seq<Withdrawal>, w: Withdrawal)
    ensures WithdrawAll(st, epoch, ws + [w]) == Withdraw(WithdrawAll(st, epoch, ws), epoch, w.validator, w.amount)
  {
    assert (ws + [w])[..|ws|] == ws;
    hide Withdraw;
  }

  function TotalFor(ws: seq<Withdrawal>, v: int): nat {
    if ws == [] then 0 else TotalFor(ws[..|ws| - 1], v) + if ws[|ws| - 1].validator == v then ws[|ws| - 1].amount else 0
  }

  predicate Withdraws(ws: seq<Withdrawal>, v: int) {
    exists i :: 0 <= i < |ws| && ws[i].validator == v
  }

  lemma WithdrawEffect(st: Storage, epoch: int, w: Withdrawal, v: int)
    ensures var d, d' := DutyAt(st, epoch, v), DutyAt(Withdraw(st, epoch, w.validator, w.amount), epoch, v);
      d' == if v == w.validator then d.(withdrawn := Some(d.withdrawn.GetOr(0) + w.amount)) else d
  {
  }

  /** The balance withdrawn grows by the sum of the validator's amounts, over all the blocks, and stays absent
      for a validator without a withdrawal. */
  lemma {:induction false} WithdrawnMeaning(st: Storage, epoch: int, ws: seq<Withdrawal>, v: int)
    ensures var d, d' := DutyAt(st, epoch, v), DutyAt(WithdrawAll(st, epoch, ws), epoch, v);
      d' == if Withdraws(ws, v) then d.(withdrawn := Some(d.withdrawn.GetOr(0) + TotalFor(ws, v))) else d
    ensures !Withdraws(ws, v) ==> TotalFor(ws, v) == 0
  {
    if ws != [] {
      var init, last := ws[..|ws| - 1], ws[|ws| - 1];
      WithdrawnMeaning(st, epoch, init, v);
      WithdrawEffect(WithdrawAll(st, epoch, init), epoch, last, v);
      WithdrawsSnoc(init, last, v);
      assert ws == init + [last];
      hide Withdraw, DutyAt, Withdraws;
    }
  }

  lemma WithdrawsSnoc(init: seq<Withdrawal>, last: Withdrawal, v: int)
    ensures Withdraws(init + [last], v) <==> Withdraws(init, v) || last.validator == v
  {
    var ws := init + [last];
    if i :| 0 <= i < |init| && init[i].validator == v {
      assert ws[i].validator == v;
    }
    assert ws[|init|] == last;
  }

  // ---- over all blocks -------------------------------------------------------------------------

  ghost function AmountFor(v: int): Withdrawal -> int {
    (w: Withdrawal) => if w.validator == v then w.amount else 0
  }

  /** What a validator gets in one block; nothing in a block without withdrawals. */
  ghost function PaidIn(v: int): Option<seq<Withdrawal>> -> int {
    (b: Option<seq<Withdrawal>>) => if b.Some? then SumSeq(b.value, AmountFor(v)) else 0
  }

  predicate PaidSomewhere(blocks: seq<Option<seq<Withdrawal>>>, v: int) {
    exists b, i :: 0 <= b < |blocks| && blocks[b].Some? && 0 <= i < |blocks[b].value| && blocks[b].value[i].validator == v
  }

  lemma {:induction false} TotalIsSum(ws: seq<Withdrawal>, v: int)
    ensures TotalFor(ws, v) == SumSeq(ws, AmountFor(v))
  {
    if ws != [] {
      TotalIsSum(ws[..|ws| - 1], v);
    }
  }

  lemma {:induction false} TotalConcat(a: seq<Withdrawal>, b: seq<Withdrawal>, v: int)
    ensures TotalFor(a + b, v) == TotalFor(a, v) + TotalFor(b, v)
    ensures Withdraws(a + b, v) <==> Withdraws(a, v) || Withdraws(b, v)
  {
    if b == [] {
      assert a + b == a;
    } else {
      TotalConcat(a, b[..|b| - 1], v);
      assert (a + b)[..|a + b| - 1] == a + b[..|b| - 1];
    }
    WithdrawsConcat(a, b, v);
  }

  lemma WithdrawsConcat(a: seq<Withdrawal>, b: seq<Withdrawal>, v: int)
    ensures Withdraws(a + b, v) <==> Withdraws(a, v) || Withdraws(b, v)
  {
    if i :| 0 <= i < |a| && a[i].validator == v {
      assert (a + b)[i].validator == v;
    }
    if i :| 0 <= i < |b| && b[i].validator == v {
      assert (a + b)[|a| + i].validator == v;
    }
  }

  lemma {:induction false} BlockByBlock(blocks: seq<Option<seq<Withdrawal>>>, v: int)
    ensures TotalFor(InBlocks(blocks), v) == SumSeq(blocks, PaidIn(v))
    ensures Withdraws(InBlocks(blocks), v) <==> PaidSomewhere(blocks, v)
  {
    if blocks != [] {
      var init, last := blocks[..|blocks| - 1], blocks[|blocks| - 1];
      assert blocks == init + [last];
      BlockByBlock(init, v);
      TotalConcat(InBlocks(init), last.GetOr([]), v);
      TotalIsSum(last.GetOr([]), v);
      assert PaidIn(v)(last) == SumSeq(last.GetOr([]), AmountFor(v));
      SomewhereSnoc(init, last, v);
      hide TotalFor, AmountFor, PaidIn, PaidSomewhere, Withdraws;
    }
  }

  lemma SomewhereSnoc(init: seq<Option<seq<Withdrawal>>>, last: Option<seq<Withdrawal>>, v: int)
    ensures PaidSomewhere(init + [last], v) <==> PaidSomewhere(init, v) || Withdraws(last.GetOr([]), v)
  {
    var blocks := init + [last];
    if b, i :| 0 <= b < |init| && init[b].Some? && 0 <= i < |init[b].value| && init[b].value[i].validator == v {
      assert blocks[b].value[i].validator == v;
    }
    if i :| 0 <= i < |last.GetOr([])| && last.GetOr([])[i].validator == v {
      assert blocks[|init|].value[i].validator == v;
    }
    if b, i :| 0 <= b < |blocks| && blocks[b].Some? && 0 <= i < |blocks[b].value| && blocks[b].value[i].validator == v {
      if b < |init| {
        assert init[b].value[i].validator == v;
      }
    }
  }

  /** After a check a validator has withdrawn, on top of before, what all withdrawals of all blocks pay it together; the amount
      stays absent exactly if no block pays it anything. */
  lemma CheckedWithdrawals(st: Storage, epoch: int, blocks: seq<Option<seq<Withdrawal>>>, v: int)
    ensures var d, d' := DutyAt(st, epoch, v), DutyAt(WithdrawAll(st, epoch, InBlocks(blocks)), epoch, v);
      if PaidSomewhere(blocks, v)
      then d' == d.(withdrawn := d'.withdrawn) && d'.withdrawn.Some? && d'.withdrawn.value == d.withdrawn.GetOr(0) + SumSeq(blocks, PaidIn(v))
      else d' == d
  {
    BlockByBlock(blocks, v);
    WithdrawnMeaning(st, epoch, InBlocks(blocks), v);
    hide WithdrawAll, InBlocks, PaidSomewhere, PaidIn, Withdraws, TotalFor, DutyAt;
  }
}
