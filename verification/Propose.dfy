/** Proposer duties: every duty of the epoch is filed under its validator, with whether the block came. */
module Propose {
  import opened Options
  import opened Summary

  datatype ProposerDuty = ProposerDuty(validator: int, slot: int)

  /** `proposed` tells whether the slot has a block header. */
  function ProposeOne(st: Storage, epoch: int, validator: int, slot: int, proposed: bool): Storage {
    PatchDuty(st, epoch, validator, NO_DUTY.(propose := ProposeDuty(Some(true), Some(slot), Some(proposed))))
  }

  function Proposed(st: Storage, epoch: int, duties: seq<ProposerDuty>, headers: set<int>): Storage {
    if duties == [] then st
    else
      var last := duties[|duties| - 1];
      ProposeOne(Proposed(st, epoch, duties[..|duties| - 1], headers), epoch, last.validator, last.slot, last.slot in headers)
  }

  class ProposeService {
    const summary: SummaryService

    constructor (summary: SummaryService)
      ensures this.summary == summary
    {
      this.summary := summary;
    }

    /** Fails when no node returned the duties. */
    method Check(epoch: int, proposersDutyInfo: Option<seq<ProposerDuty>>, headers: set<int>) returns (ok: bool)
      modifies summary
      ensures ok <==> proposersDutyInfo.Some?
      ensures summary.storage == if ok then Proposed(old(summary.storage), epoch, proposersDutyInfo.value, headers) else old(summary.storage)
    {
      ok := proposersDutyInfo.Some?;
      if !ok {
        return;
      }
      var duties := proposersDutyInfo.value;
      for i := 0 to |duties|
        invariant summary.storage == Proposed(old(summary.storage), epoch, duties[..i], headers)
      {
        assert duties[..i + 1][..i] == duties[..i];
        var prop := duties[i];
        summary.Set(epoch, prop.validator,
                    NO_DUTY.(propose := ProposeDuty(Some(true), Some(prop.slot), Some(prop.slot in headers))));
      }
      assert duties[..|duties|] == duties;
    }
  }

  lemma ProposeEffect(st: Storage, epoch: int, validator: int, slot: int, proposed: bool, v: int)
    ensures var d, d' := DutyAt(st, epoch, v), DutyAt(ProposeOne(st, epoch, validator, slot, proposed), epoch, v);
      d' == if v == validator then d.(propose := ProposeDuty(Some(true), Some(slot), Some(proposed))) else d
  {
  }

  /** The slot of a validator's last duty in the list. */
  function LastSlot(duties: seq<ProposerDuty>, v: int): Option<int> {
    if duties == [] then None
    else if duties[|duties| - 1].validator == v then Some(duties[|duties| - 1].slot)
    else LastSlot(duties[..|duties| - 1], v)
  }

  lemma {:induction false} LastSlotIsLast(duties: seq<ProposerDuty>, v: int, i: nat)
    requires i < |duties| && duties[i].validator == v && forall j :: i < j < |duties| ==> duties[j].validator != v
    ensures LastSlot(duties, v) == Some(duties[i].slot)
  {
    if i < |duties| - 1 {
      LastSlotIsLast(duties[..|duties| - 1], v, i);
    }
  }

  lemma {:induction false} NoSlotWithoutDuty(duties: seq<ProposerDuty>, v: int)
    ensures LastSlot(duties, v).None? <==> forall i :: 0 <= i < |duties| ==> duties[i].validator != v
  {
    if duties != [] {
      var init := duties[..|duties| - 1];
      NoSlotWithoutDuty(init, v);
      assert forall i :: 0 <= i < |init| ==> init[i] == duties[i];
    }
  }

  lemma {:induction false} ProposedFollowsLastSlot(st: Storage, epoch: int, duties: seq<ProposerDuty>, headers: set<int>, v: int)
    ensures var d, d' := DutyAt(st, epoch, v), DutyAt(Proposed(st, epoch, duties, headers), epoch, v);
            var slot := LastSlot(duties, v);
      d' == if slot.Some? then d.(propose := ProposeDuty(Some(true), slot, Some(slot.value in headers))) else d
  {
    if duties != [] {
      var init, last := duties[..|duties| - 1], duties[|duties| - 1];
      ProposedFollowsLastSlot(st, epoch, init, headers, v);
      ProposeEffect(Proposed(st, epoch, init, headers), epoch, last.validator, last.slot, last.slot in headers, v);
      hide ProposeOne, DutyAt;
    }
  }

  predicate IsLastDuty(duties: seq<ProposerDuty>, i: int, v: int) {
    0 <= i < |duties| && duties[i].validator == v && forall j :: i < j < |duties| ==> duties[j].validator != v
  }

  /** A validator with a duty is marked as proposer, and of several duties in one epoch its record keeps the last one,
      with whether that slot has a block. The record of a validator without a duty is untouched. */
  lemma ProposedMeaning(st: Storage, epoch: int, duties: seq<ProposerDuty>, headers: set<int>, v: int)
    ensures var d, d' := DutyAt(st, epoch, v), DutyAt(Proposed(st, epoch, duties, headers), epoch, v);
      && ((forall i :: 0 <= i < |duties| ==> duties[i].validator != v) ==> d' == d)
      && forall i :: IsLastDuty(duties, i, v) ==>
           d' == d.(propose := ProposeDuty(Some(true), Some(duties[i].slot), Some(duties[i].slot in headers)))
  {
    hide Proposed, DutyAt, LastSlot;
    ProposedFollowsLastSlot(st, epoch, duties, headers, v);
    NoSlotWithoutDuty(duties, v);
    forall i | IsLastDuty(duties, i, v)
      ensures LastSlot(duties, v) == Some(duties[i].slot)
    {
      LastSlotIsLast(duties, v, i);
    }
  }
}
