/** What the attestation fold means, however the aggregates overlap: each flag is the disjunction over
    all aggregates, each credit goes to the first aggregate that earned it, the delay is the smallest. */
module AttestationAccounting {
  import opened Constants
  import opened Options
  import opened Summary
  import opened AttestationConstants
  import opened Attestation
  import opened Sums

  function Known(a: AttDuty, f: Flag): Option<bool> {
    match f
    case SourceFlag => a.source
    case TargetFlag => a.target
    case HeadFlag => a.head
  }

  function Listed(c: Credit, f: Flag): seq<int> {
    match f
    case SourceFlag => c.source
    case TargetFlag => c.target
    case HeadFlag => c.head
  }

  function AttAt(st: Storage, te: int, v: int): AttDuty {
    DutyAt(st, te, v).att
  }

  predicate Has(st: Storage, te: int, v: int, f: Flag) {
    Truthy(Known(AttAt(st, te, v), f))
  }

  function Times(list: seq<int>, v: int): nat {
    multiset(list)[v]
  }

  /** The aggregate has the bit of `v` set in an attestation for `te`. */
  predicate Included(agg: Aggregate, te: int, v: int) {
    agg.targetEpoch == te && v in agg.members
  }

  predicate Earned(agg: Aggregate, te: int, v: int, f: Flag) {
    Included(agg, te, v) && f.In(agg.flags)
  }

  predicate SomeEarned(aggs: seq<Aggregate>, te: int, v: int, f: Flag) {
    exists i :: 0 <= i < |aggs| && Earned(aggs[i], te, v, f)
  }

  predicate SomeIncluded(aggs: seq<Aggregate>, te: int, v: int) {
    exists i :: 0 <= i < |aggs| && Included(aggs[i], te, v)
  }

  lemma SomeEarnedSnoc(aggs: seq<Aggregate>, agg: Aggregate, te: int, v: int, f: Flag)
    ensures SomeEarned(aggs + [agg], te, v, f) <==> SomeEarned(aggs, te, v, f) || Earned(agg, te, v, f)
  {
    hide Earned;
    if i :| 0 <= i < |aggs| && Earned(aggs[i], te, v, f) {
      assert Earned((aggs + [agg])[i], te, v, f);
    }
    if Earned(agg, te, v, f) {
      assert Earned((aggs + [agg])[|aggs|], te, v, f);
    }
  }

  lemma SomeIncludedSnoc(aggs: seq<Aggregate>, agg: Aggregate, te: int, v: int)
    ensures SomeIncluded(aggs + [agg], te, v) <==> SomeIncluded(aggs, te, v) || Included(agg, te, v)
  {
    hide Included;
    if i :| 0 <= i < |aggs| && Included(aggs[i], te, v) {
      assert Included((aggs + [agg])[i], te, v);
    }
    if Included(agg, te, v) {
      assert Included((aggs + [agg])[|aggs|], te, v);
    }
  }

  predicate FirstEarned(aggs: seq<Aggregate>, i: nat, v: int, f: Flag)
    requires i < |aggs|
  {
    Earned(aggs[i], aggs[i].targetEpoch, v, f) && !SomeEarned(aggs[..i], aggs[i].targetEpoch, v, f)
  }

  // ---- one validator, one aggregate ------------------------------------------------------------

  lemma IncludeOneEffect(w: World, te: int, v: int, incDelay: int, flags: Flags, e: int, u: int, f: Flag)
    ensures var w' := IncludeOne(w, te, v, incDelay, flags);
      && DutyAt(w'.st, e, u) == DutyAt(w.st, e, u).(att := if (e, u) == (te, v) then AttAfter(AttAt(w.st, te, v), incDelay, flags)
                                                           else AttAt(w.st, e, u))
      && (Has(w'.st, e, u, f) <==> Has(w.st, e, u, f) || ((e, u) == (te, v) && f.In(flags)))
      && Listed(w'.credit, f) == Listed(w.credit, f) + if !Has(w.st, te, v, f) && f.In(flags) then [v] else []
  {
  }

  /** The effect of a whole aggregate on one record and on one list. */
  lemma {:induction false} IncludeAllEffect(w: World, te: int, vs: seq<int>, incDelay: int, flags: Flags, e: int, u: int, f: Flag)
    ensures var w' := IncludeAll(w, te, vs, incDelay, flags);
      && (Has(w'.st, e, u, f) <==> Has(w.st, e, u, f) || (e == te && u in vs && f.In(flags)))
      && Times(Listed(w'.credit, f), u) == Times(Listed(w.credit, f), u)
                                          + (if u in vs && f.In(flags) && !Has(w.st, te, u, f) then 1 else 0)
  {
    if vs != [] {
      var init, v := vs[..|vs| - 1], vs[|vs| - 1];
      var mid := IncludeAll(w, te, init, incDelay, flags);
      IncludeAllEffect(w, te, init, incDelay, flags, e, u, f);
      IncludeAllEffect(w, te, init, incDelay, flags, te, u, f);
      IncludeAllEffect(w, te, init, incDelay, flags, te, v, f);
      IncludeOneEffect(mid, te, v, incDelay, flags, e, u, f);
      hide IncludeOne, Has;
      assert vs == init + [v];
    }
  }

  /** The other attestation fields, and everything the other checks own. */
  lemma {:induction false} IncludeAllRecord(w: World, te: int, vs: seq<int>, incDelay: int, flags: Flags, e: int, u: int)
    ensures var d, d' := DutyAt(w.st, e, u), DutyAt(IncludeAll(w, te, vs, incDelay, flags).st, e, u);
      && d' == d.(att := d'.att)
      && (e == te && u in vs ==> d'.att.happened == Some(true) && d'.att.incDelay == Some(FirstDelay(d.att.incDelay, incDelay)))
      && (!(e == te && u in vs) ==> d' == d)
  {
    if vs != [] {
      var init, v := vs[..|vs| - 1], vs[|vs| - 1];
      IncludeAllRecord(w, te, init, incDelay, flags, e, u);
      IncludeOneEffect(IncludeAll(w, te, init, incDelay, flags), te, v, incDelay, flags, e, u, SourceFlag);
      hide IncludeOne;
      assert vs == init + [v];
    }
  }

  lemma RunAggregateEffect(st: Storage, epoch: int, agg: Aggregate, e: int, u: int, f: Flag)
    ensures Has(RunAggregate(st, epoch, agg), e, u, f) <==> Has(st, e, u, f) || Earned(agg, e, u, f)
    ensures Times(Listed(CreditOf(st, agg), f), u) == if Earned(agg, agg.targetEpoch, u, f) && !Has(st, agg.targetEpoch, u, f) then 1 else 0
  {
    IncludeAllEffect(World(st, NO_CREDIT), agg.targetEpoch, agg.members, agg.incDelay, agg.flags, e, u, f);
    CloseKeepsDuties(st, epoch, agg, e, u);
    hide IncludeAll;
  }

  lemma CloseKeepsDuties(st: Storage, epoch: int, agg: Aggregate, e: int, u: int)
    ensures DutyAt(RunAggregate(st, epoch, agg), e, u)
         == DutyAt(IncludeAll(World(st, NO_CREDIT), agg.targetEpoch, agg.members, agg.incDelay, agg.flags).st, e, u)
  {
    hide IncludeAll;
  }

  // ---- the fold over a whole run ---------------------------------------------------------------

  /** A flag ends up set exactly when it was set before or some aggregate earned it. */
  lemma {:induction false} FlagMeaning(st: Storage, epoch: int, aggs: seq<Aggregate>, te: int, v: int, f: Flag)
    ensures Has(RunAll(st, epoch, aggs), te, v, f) <==> Has(st, te, v, f) || SomeEarned(aggs, te, v, f)
  {
    if aggs != [] {
      var init, agg := aggs[..|aggs| - 1], aggs[|aggs| - 1];
      FlagMeaning(st, epoch, init, te, v, f);
      RunAggregateEffect(RunAll(st, epoch, init), epoch, agg, te, v, f);
      SomeEarnedSnoc(init, agg, te, v, f);
      assert aggs == init + [agg];
      hide RunAggregate, Has, Earned, SomeEarned;
    }
  }

  /** The lists of the i-th aggregate, computed against the store the earlier ones left behind. */
  function CreditAt(st: Storage, epoch: int, aggs: seq<Aggregate>, i: nat): Credit
    requires i < |aggs|
  {
    CreditOf(RunAll(st, epoch, aggs[..i]), aggs[i])
  }

  /** First-inclusion credit: an aggregate lists a validator once for a flag if it is the first of all
      the aggregates for that target epoch to earn it, and never otherwise. */
  lemma CreditGoesToFirst(st: Storage, epoch: int, aggs: seq<Aggregate>, i: nat, v: int, f: Flag)
    requires i < |aggs|
    ensures Times(Listed(CreditAt(st, epoch, aggs, i), f), v)
         == if FirstEarned(aggs, i, v, f) && !Has(st, aggs[i].targetEpoch, v, f) then 1 else 0
  {
    var te := aggs[i].targetEpoch;
    FlagMeaning(st, epoch, aggs[..i], te, v, f);
    RunAggregateEffect(RunAll(st, epoch, aggs[..i]), epoch, aggs[i], te, v, f);
  }

  /** How often `v` was credited with `f` for `te` in the first `n` aggregates. */
  ghost function CreditTotal(st: Storage, epoch: int, aggs: seq<Aggregate>, te: int, v: int, f: Flag, n: nat): nat
    requires n <= |aggs|
  {
    if n == 0 then 0
    else CreditTotal(st, epoch, aggs, te, v, f, n - 1)
         + if aggs[n - 1].targetEpoch == te then Times(Listed(CreditAt(st, epoch, aggs, n - 1), f), v) else 0
  }

  lemma CreditFor(st: Storage, epoch: int, aggs: seq<Aggregate>, te: int, v: int, f: Flag, i: nat)
    requires i < |aggs| && !Has(st, te, v, f)
    ensures (if aggs[i].targetEpoch == te then Times(Listed(CreditAt(st, epoch, aggs, i), f), v) else 0)
         == if Earned(aggs[i], te, v, f) && !SomeEarned(aggs[..i], te, v, f) then 1 else 0
  {
    CreditGoesToFirst(st, epoch, aggs, i, v, f);
    hide CreditAt, Has, SomeEarned, Times;
  }

  lemma {:induction false} CreditTotalUpTo(st: Storage, epoch: int, aggs: seq<Aggregate>, te: int, v: int, f: Flag, n: nat)
    requires n <= |aggs| && !Has(st, te, v, f)
    ensures CreditTotal(st, epoch, aggs, te, v, f, n) == if SomeEarned(aggs[..n], te, v, f) then 1 else 0
  {
    if n > 0 {
      hide CreditAt, Has, SomeEarned, Earned, Times, Listed;
      assert aggs[..n] == aggs[..n - 1] + [aggs[n - 1]];
      CreditTotalUpTo(st, epoch, aggs, te, v, f, n - 1);
      CreditFor(st, epoch, aggs, te, v, f, n - 1);
      SomeEarnedSnoc(aggs[..n - 1], aggs[n - 1], te, v, f);
    }
  }

  /** Over the run, each (target epoch, validator, flag) that was not set before is credited to exactly one
      aggregate if the flag ends true, and to none otherwise. */
  lemma CreditedExactlyOnce(st: Storage, epoch: int, aggs: seq<Aggregate>, te: int, v: int, f: Flag)
    requires !Has(st, te, v, f)
    ensures CreditTotal(st, epoch, aggs, te, v, f, |aggs|) == if Has(RunAll(st, epoch, aggs), te, v, f) then 1 else 0
  {
    CreditTotalUpTo(st, epoch, aggs, te, v, f, |aggs|);
    assert aggs[..|aggs|] == aggs;
    FlagMeaning(st, epoch, aggs, te, v, f);
  }

  /** The stored lists of a block are the credits of the aggregates it includes, in order. */
  function CreditsIn(st: Storage, epoch: int, aggs: seq<Aggregate>, block: int, n: nat): seq<Credit>
    requires n <= |aggs|
  {
    if n == 0 then []
    else CreditsIn(st, epoch, aggs, block, n - 1) + if aggs[n - 1].block == block then [CreditAt(st, epoch, aggs, n - 1)] else []
  }

  function ListsAt(st: Storage, epoch: int): map<int, seq<Credit>> {
    MetaAt(st, epoch).att.attestations
  }

  lemma RunAggregateLists(st: Storage, epoch: int, agg: Aggregate)
    ensures ListsAt(RunAggregate(st, epoch, agg), epoch)
         == if agg.block in ListsAt(st, epoch) then ListsAt(st, epoch)[agg.block := ListsAt(st, epoch)[agg.block] + [CreditOf(st, agg)]]
            else ListsAt(st, epoch)
  {
    IncludeAllKeepsMeta(World(st, NO_CREDIT), agg.targetEpoch, agg.members, agg.incDelay, agg.flags, epoch);
    hide IncludeAll;
  }

  lemma RunAllSnoc(st: Storage, epoch: int, init: seq<Aggregate>, agg: Aggregate)
    ensures RunAll(st, epoch, init + [agg]) == RunAggregate(RunAll(st, epoch, init), epoch, agg)
  {
    assert (init + [agg])[..|init|] == init;
    hide RunAggregate;
  }

  lemma {:induction false} StoredLists(st: Storage, epoch: int, aggs: seq<Aggregate>, block: int, n: nat)
    requires n <= |aggs| && block in ListsAt(st, epoch)
    ensures var lists := ListsAt(RunAll(st, epoch, aggs[..n]), epoch);
      block in lists && lists[block] == ListsAt(st, epoch)[block] + CreditsIn(st, epoch, aggs, block, n)
  {
    if n == 0 {
      assert aggs[..0] == [];
    } else {
      hide ListsAt, CreditOf;
      var mid, agg, credit := RunAll(st, epoch, aggs[..n - 1]), aggs[n - 1], CreditAt(st, epoch, aggs, n - 1);
      assert credit == CreditOf(mid, agg);
      assert aggs[..n] == aggs[..n - 1] + [agg];
      RunAllSnoc(st, epoch, aggs[..n - 1], agg);
      hide RunAll, CreditAt;
      StoredLists(st, epoch, aggs, block, n - 1);
      RunAggregateLists(mid, epoch, agg);
      Appended(ListsAt(st, epoch)[block], CreditsIn(st, epoch, aggs, block, n - 1), credit);
      hide RunAggregate;
    }
  }

  lemma Appended(before: seq<Credit>, filed: seq<Credit>, credit: Credit)
    ensures (before + filed) + [credit] == before + (filed + [credit])
    ensures filed + [] == filed
  {
  }

  // ---- happened and delay ----------------------------------------------------------------------

  /** Later inclusions of the same vote never have a smaller delay, and every delay is positive. */
  ghost predicate DelaysAscend(aggs: seq<Aggregate>) {
    && (forall i :: 0 <= i < |aggs| ==> aggs[i].incDelay >= 1)
    && (forall i, j, v | 0 <= i < j < |aggs| && v in aggs[i].members && v in aggs[j].members ::
          aggs[i].targetEpoch == aggs[j].targetEpoch ==> aggs[i].incDelay <= aggs[j].incDelay)
  }

  predicate IsLeastDelay(aggs: seq<Aggregate>, te: int, v: int, d: int) {
    && (exists i :: 0 <= i < |aggs| && Included(aggs[i], te, v) && aggs[i].incDelay == d)
    && (forall i :: 0 <= i < |aggs| && Included(aggs[i], te, v) ==> d <= aggs[i].incDelay)
  }

  lemma RunAggregateRecord(st: Storage, epoch: int, agg: Aggregate, e: int, u: int)
    ensures var d, d' := DutyAt(st, e, u), DutyAt(RunAggregate(st, epoch, agg), e, u);
      && d' == d.(att := d'.att)
      && (Included(agg, e, u) ==> d'.att.happened == Some(true) && d'.att.incDelay == Some(FirstDelay(d.att.incDelay, agg.incDelay)))
      && (!Included(agg, e, u) ==> d' == d)
  {
    IncludeAllRecord(World(st, NO_CREDIT), agg.targetEpoch, agg.members, agg.incDelay, agg.flags, e, u);
    CloseKeepsDuties(st, epoch, agg, e, u);
    hide RunAggregate, IncludeAll;
  }

  /** A run only ever writes attestation fields, and a record no aggregate includes stays as it was. */
  lemma {:induction false} RunAllRecord(st: Storage, epoch: int, aggs: seq<Aggregate>, te: int, v: int)
    ensures var d, d' := DutyAt(st, te, v), DutyAt(RunAll(st, epoch, aggs), te, v);
      && d' == d.(att := d'.att)
      && (SomeIncluded(aggs, te, v) ==> d'.att.happened == Some(true))
      && (!SomeIncluded(aggs, te, v) ==> d' == d)
  {
    if aggs != [] {
      var init, agg := aggs[..|aggs| - 1], aggs[|aggs| - 1];
      RunAllRecord(st, epoch, init, te, v);
      RunAggregateRecord(RunAll(st, epoch, init), epoch, agg, te, v);
      SomeIncludedSnoc(init, agg, te, v);
      assert aggs == init + [agg];
      hide RunAggregate, Included, SomeIncluded;
    }
  }

  /** The recorded delay is the least over all inclusions. */
  lemma {:induction false} DelayIsLeast(st: Storage, epoch: int, aggs: seq<Aggregate>, te: int, v: int)
    requires DelaysAscend(aggs) && AttAt(st, te, v).incDelay == None
    ensures var known := AttAt(RunAll(st, epoch, aggs), te, v).incDelay;
      && (known.Some? <==> SomeIncluded(aggs, te, v))
      && (known.Some? ==> IsLeastDelay(aggs, te, v, known.value))
  {
    if aggs != [] {
      hide RunAggregate, SomeIncluded, IsLeastDelay, Included, FirstDelay, DutyAt;
      var init, agg := aggs[..|aggs| - 1], aggs[|aggs| - 1];
      assert aggs == init + [agg];
      DelaysAscendInit(init, agg);
      hide DelaysAscend;
      DelayIsLeast(st, epoch, init, te, v);
      RunAggregateRecord(RunAll(st, epoch, init), epoch, agg, te, v);
      SomeIncludedSnoc(init, agg, te, v);
      var known := AttAt(RunAll(st, epoch, init), te, v).incDelay;
      if known.Some? {
        LeastDelaySnoc(init, agg, te, v, known.value);
        FirstDelayStays(known, agg.incDelay);
      } else if Included(agg, te, v) {
        FirstDelayIsLeast(init, agg, te, v);
        FirstDelayStays(known, agg.incDelay);
      }
    }
  }

  lemma DelaysAscendInit(init: seq<Aggregate>, agg: Aggregate)
    requires DelaysAscend(init + [agg])
    ensures DelaysAscend(init)
  {
    assert forall i :: 0 <= i < |init| ==> (init + [agg])[i] == init[i];
  }

  lemma FirstDelayStays(known: Option<int>, incDelay: int)
    ensures known.Some? && known.value != 0 ==> FirstDelay(known, incDelay) == known.value
    ensures known.None? ==> FirstDelay(known, incDelay) == incDelay
  {
  }

  lemma LeastDelaySnoc(aggs: seq<Aggregate>, agg: Aggregate, te: int, v: int, d: int)
    requires DelaysAscend(aggs + [agg]) && IsLeastDelay(aggs, te, v, d)
    ensures d != 0 && IsLeastDelay(aggs + [agg], te, v, d)
  {
    var all := aggs + [agg];
    var i :| 0 <= i < |aggs| && Included(aggs[i], te, v) && aggs[i].incDelay == d;
    assert Included(all[i], te, v) && all[i].incDelay == d;
    forall k | 0 <= k < |all| && Included(all[k], te, v)
      ensures d <= all[k].incDelay
    {
      if k < |aggs| {
        assert all[k] == aggs[k];
      }
    }
  }

  lemma FirstDelayIsLeast(aggs: seq<Aggregate>, agg: Aggregate, te: int, v: int)
    requires !SomeIncluded(aggs, te, v) && Included(agg, te, v)
    ensures IsLeastDelay(aggs + [agg], te, v, agg.incDelay)
  {
    var all := aggs + [agg];
    assert all[|aggs|] == agg;
    assert forall k :: 0 <= k < |aggs| ==> all[k] == aggs[k] && !Included(aggs[k], te, v);
  }

  // ---- from the cleared store ------------------------------------------------------------------

  predicate Member(infos: seq<CommitteeInfo>, v: int) {
    exists k :: 0 <= k < |infos| && v in infos[k].validators
  }

  lemma {:induction false} ExpectAllMarks(st: Storage, epoch: int, vs: seq<int>, te: int, v: int)
    ensures AttAt(ExpectAll(st, epoch, vs), te, v)
         == if te == epoch && v in vs then AttAt(st, te, v).(happened := Some(false)) else AttAt(st, te, v)
  {
    if vs != [] {
      ExpectAllMarks(st, epoch, vs[..|vs| - 1], te, v);
    }
  }

  lemma {:induction false} ExpectMarks(st: Storage, epoch: int, infos: seq<CommitteeInfo>, te: int, v: int)
    ensures AttAt(ExpectCommittees(st, epoch, infos), te, v)
         == if te == epoch && Member(infos, v) then AttAt(st, te, v).(happened := Some(false)) else AttAt(st, te, v)
  {
    if infos != [] {
      var init, last := infos[..|infos| - 1], infos[|infos| - 1];
      ExpectMarks(st, epoch, init, te, v);
      ExpectAllMarks(ExpectCommittees(st, epoch, init), epoch, last.validators, te, v);
      hide AttAt;
      assert Member(infos, v) <==> Member(init, v) || v in last.validators by {
        assert forall k :: 0 <= k < |init| ==> init[k] == infos[k];
        if Member(init, v) {
          var k :| 0 <= k < |init| && v in init[k].validators;
          assert v in infos[k].validators;
        }
        if v in last.validators {
          assert v in infos[|init|].validators;
        }
        if Member(infos, v) {
          var k :| 0 <= k < |infos| && v in infos[k].validators;
          assert k == |init| || v in init[k].validators;
        }
      }
    }
  }

  /** The record of a validator says what the aggregates say, and only what they say. */
  ghost predicate RecordMeans(att: AttDuty, aggs: seq<Aggregate>, te: int, v: int, expected: bool) {
    var seen := SomeIncluded(aggs, te, v);
    && (att.happened == Some(true) <==> seen)
    && (att.happened == Some(false) <==> !seen && expected)
    && (att.source == Some(true) <==> SomeEarned(aggs, te, v, SourceFlag))
    && (att.target == Some(true) <==> SomeEarned(aggs, te, v, TargetFlag))
    && (att.head == Some(true) <==> SomeEarned(aggs, te, v, HeadFlag))
    && (att.incDelay.Some? <==> seen)
    && (seen ==> IsLeastDelay(aggs, te, v, att.incDelay.value))
  }

  lemma FoldMeaning(st: Storage, epoch: int, aggs: seq<Aggregate>, te: int, v: int, expected: bool)
    requires DelaysAscend(aggs)
    requires AttAt(st, te, v) == NO_ATT.(happened := if expected then Some(false) else None)
    ensures RecordMeans(AttAt(RunAll(st, epoch, aggs), te, v), aggs, te, v, expected)
  {
    RunAllRecord(st, epoch, aggs, te, v);
    DelayIsLeast(st, epoch, aggs, te, v);
    FlagMeaning(st, epoch, aggs, te, v, SourceFlag);
    FlagMeaning(st, epoch, aggs, te, v, TargetFlag);
    FlagMeaning(st, epoch, aggs, te, v, HeadFlag);
    hide RunAll, SomeIncluded, IsLeastDelay, DutyAt, SomeEarned;
  }

  /** A validator is expected to vote in an epoch if it sits in one of its committees. */
  predicate IsExpected(epoch: int, prev: seq<CommitteeInfo>, curr: seq<CommitteeInfo>, te: int, v: int) {
    (te == epoch && Member(curr, v)) || (te == epoch - 1 && Member(prev, v))
  }

  /** The meaning of a whole check from a cleared store, for aggregates in the order of their delays. */
  lemma CheckedRecords(epoch: int, aggs: seq<Aggregate>, prev: seq<CommitteeInfo>, curr: seq<CommitteeInfo>, te: int, v: int)
    requires DelaysAscend(aggs)
    ensures RecordMeans(AttAt(Checked(map[], epoch, aggs, prev, curr), te, v), aggs, te, v, IsExpected(epoch, prev, curr, te, v))
  {
    var st := ExpectCommittees(ExpectCommittees(map[], epoch - 1, prev), epoch, curr);
    FreshAfterExpect(epoch, prev, curr, te, v);
    hide Member;
    FoldMeaning(st, epoch, aggs, te, v, IsExpected(epoch, prev, curr, te, v));
    hide RunAll, ExpectCommittees, RecordMeans, DutyAt, IsExpected;
  }

  lemma FreshAfterExpect(epoch: int, prev: seq<CommitteeInfo>, curr: seq<CommitteeInfo>, te: int, v: int)
    ensures var att := AttAt(ExpectCommittees(ExpectCommittees(map[], epoch - 1, prev), epoch, curr), te, v);
      att == NO_ATT.(happened := if IsExpected(epoch, prev, curr, te, v) then Some(false) else None)
  {
    ExpectMarks(map[], epoch - 1, prev, te, v);
    ExpectMarks(ExpectCommittees(map[], epoch - 1, prev), epoch, curr, te, v);
    hide ExpectCommittees, Member;
  }

  /** In every summary a check can produce, the head flag implies the other two. */
  lemma HeadImpliesOthers(st: Storage, epoch: int, aggs: seq<Aggregate>, te: int, v: int)
    requires forall i :: 0 <= i < |aggs| ==> (aggs[i].flags.head ==> aggs[i].flags.source && aggs[i].flags.target)
    requires Has(st, te, v, HeadFlag) ==> Has(st, te, v, SourceFlag) && Has(st, te, v, TargetFlag)
    ensures var st' := RunAll(st, epoch, aggs);
      Has(st', te, v, HeadFlag) ==> Has(st', te, v, SourceFlag) && Has(st', te, v, TargetFlag)
  {
    FlagMeaning(st, epoch, aggs, te, v, SourceFlag);
    FlagMeaning(st, epoch, aggs, te, v, TargetFlag);
    FlagMeaning(st, epoch, aggs, te, v, HeadFlag);
    hide RunAll, Has;
    if i :| 0 <= i < |aggs| && Earned(aggs[i], te, v, HeadFlag) {
      assert Earned(aggs[i], te, v, SourceFlag) && Earned(aggs[i], te, v, TargetFlag);
    }
  }

  /** The same for a whole check, whatever the attestations and however the roots compare. */
  lemma HeadImpliesOthersAfterCheck(epoch: int, atts: seq<SlotAttestation>, committees: Committees, canon: int -> Root, forks: Forks,
                                    prev: seq<CommitteeInfo>, curr: seq<CommitteeInfo>, te: int, v: int)
    requires AllResolve(atts, committees, canon, forks)
    ensures var st := Checked(map[], epoch, Aggregates(atts, committees, canon, forks), prev, curr);
      Has(st, te, v, HeadFlag) ==> Has(st, te, v, SourceFlag) && Has(st, te, v, TargetFlag)
  {
    var aggs := Aggregates(atts, committees, canon, forks);
    forall i | 0 <= i < |aggs|
      ensures aggs[i].flags.head ==> aggs[i].flags.source && aggs[i].flags.target
    {
      hide CommitteesOf, Attesting, Flatten;
    }
    FreshAfterExpect(epoch, prev, curr, te, v);
    HeadImpliesOthers(ExpectCommittees(ExpectCommittees(map[], epoch - 1, prev), epoch, curr), epoch, aggs, te, v);
    hide Aggregates, ExpectCommittees, RunAll;
  }

  // ---- why the aggregates of a round have ascending delays --------------------------------------

  /** What the chain enforces on an attestation in a block. */
  predicate BlockValid(att: SlotAttestation) {
    att.targetEpoch == att.slot / SLOTS_PER_EPOCH && att.includedInBlock > att.slot
  }

  /** Each validator sits in one committee per epoch. */
  ghost predicate OneCommittee(committees: Committees) {
    forall a, b, v | a in committees && b in committees && v in committees[a] && v in committees[b] ::
      a.1 / SLOTS_PER_EPOCH == b.1 / SLOTS_PER_EPOCH ==> a == b
  }

  lemma {:induction false} FlattenedFrom(committees: Committees, indexes: seq<int>, slot: int, v: int)
    requires LookupAll(committees, indexes, slot).Some? && v in Flatten(LookupAll(committees, indexes, slot).value)
    ensures exists k :: (k, slot) in committees && v in committees[(k, slot)]
  {
    if indexes != [] {
      var init := LookupAll(committees, indexes[..|indexes| - 1], slot).value;
      var last := committees[(indexes[|indexes| - 1], slot)];
      assert (init + [last])[..|init|] == init;
      if v in last {
        var k := indexes[|indexes| - 1];
        assert (k, slot) in committees && v in committees[(k, slot)];
      } else {
        FlattenedFrom(committees, indexes[..|indexes| - 1], slot, v);
      }
    }
  }

  lemma MemberSlot(att: SlotAttestation, committees: Committees, canon: int -> Root, forks: Forks, v: int)
    requires Resolve(att, committees, canon, forks).Some? && v in Resolve(att, committees, canon, forks).value.members
    ensures exists k :: (k, att.slot) in committees && v in committees[(k, att.slot)]
  {
    hide FlagsOf;
    var cs := CommitteesOf(att, committees, forks).value;
    AttestingIsZip(att.aggregationBits, Flatten(cs), 0, v);
    var i :| 0 <= i < |Flatten(cs)| && Flatten(cs)[i] == v && Bit(att.aggregationBits, 0 + i);
    FlattenedFrom(committees, if IsElectra(att.includedInBlock, forks) then att.committeeIndexes.value else [att.committeeIndex], att.slot, v);
  }

  predicate BlocksAscend(atts: seq<SlotAttestation>) {
    forall i, j :: 0 <= i < j < |atts| ==> atts[i].includedInBlock <= atts[j].includedInBlock
  }

  lemma {:induction false} CollectedAscends(blocks: map<int, seq<BlockAttestation>>, lo: int, hi: int, forks: Forks)
    requires lo <= hi
    ensures BlocksAscend(Collected(blocks, lo, hi, forks))
    ensures forall a :: a in Collected(blocks, lo, hi, forks) ==> a.includedInBlock < hi
    decreases hi - lo
  {
    if lo < hi {
      CollectedAscends(blocks, lo, hi - 1, forks);
      var c := Collected(blocks, lo, hi - 1, forks);
      assert forall i :: 0 <= i < |c| ==> c[i] in c;
    }
  }

  lemma {:induction false} RelevantAscends(epoch: int, atts: seq<SlotAttestation>)
    requires BlocksAscend(atts)
    ensures BlocksAscend(RelevantOf(epoch, atts))
    ensures forall a :: a in RelevantOf(epoch, atts) ==> a in atts && Relevant(epoch, a)
  {
    if atts != [] {
      var init, last := atts[..|atts| - 1], atts[|atts| - 1];
      BlocksAscendInit(init, last, atts);
      hide BlocksAscend, Relevant;
      RelevantAscends(epoch, init);
      BlocksAscendSnoc(RelevantOf(epoch, init), last);
    }
  }

  lemma BlocksAscendInit(init: seq<SlotAttestation>, last: SlotAttestation, atts: seq<SlotAttestation>)
    requires BlocksAscend(atts) && atts == init + [last]
    ensures BlocksAscend(init) && forall a :: a in init ==> a in atts && a.includedInBlock <= last.includedInBlock
  {
    assert atts[|init|] == last;
    assert forall i :: 0 <= i < |init| ==> init[i] == atts[i];
  }

  lemma BlocksAscendSnoc(s: seq<SlotAttestation>, x: SlotAttestation)
    requires BlocksAscend(s)
    ensures (forall a :: a in s ==> a.includedInBlock <= x.includedInBlock) ==> BlocksAscend(s + [x])
    ensures BlocksAscend(s + [])
  {
    assert s + [] == s;
    assert forall i :: 0 <= i < |s| ==> s[i] in s;
  }

  /** Blocks are visited in ascending order and a validator votes for one slot per epoch, so its first inclusion
      is its fastest. */
  lemma BlockOrderIsDelayOrder(epoch: int, blocks: map<int, seq<BlockAttestation>>, committees: Committees, canon: int -> Root, forks: Forks)
    requires OneCommittee(committees)
    requires var atts := RelevantOf(epoch, Collected(blocks, (epoch - 1) * SLOTS_PER_EPOCH, (epoch + 1) * SLOTS_PER_EPOCH, forks));
      AllResolve(atts, committees, canon, forks) && forall a :: a in atts ==> BlockValid(a)
    ensures DelaysAscend(Aggregates(RelevantOf(epoch, Collected(blocks, (epoch - 1) * SLOTS_PER_EPOCH, (epoch + 1) * SLOTS_PER_EPOCH, forks)),
                                    committees, canon, forks))
  {
    var collected := Collected(blocks, (epoch - 1) * SLOTS_PER_EPOCH, (epoch + 1) * SLOTS_PER_EPOCH, forks);
    CollectedAscends(blocks, (epoch - 1) * SLOTS_PER_EPOCH, (epoch + 1) * SLOTS_PER_EPOCH, forks);
    RelevantAscends(epoch, collected);
    var atts := RelevantOf(epoch, collected);
    hide Collected, RelevantOf;
    ResolvedDelaysAscend(atts, committees, canon, forks);
  }

  lemma ResolvedDelaysAscend(atts: seq<SlotAttestation>, committees: Committees, canon: int -> Root, forks: Forks)
    requires OneCommittee(committees) && AllResolve(atts, committees, canon, forks) && BlocksAscend(atts)
    requires forall a :: a in atts ==> BlockValid(a)
    ensures DelaysAscend(Aggregates(atts, committees, canon, forks))
  {
    var aggs := Aggregates(atts, committees, canon, forks);
    forall i | 0 <= i < |aggs|
      ensures aggs[i].incDelay >= 1
    {
      assert atts[i] in atts;
      hide CommitteesOf, FlagsOf, Attesting;
    }
    forall i, j, v | 0 <= i < j < |aggs| && aggs[i].targetEpoch == aggs[j].targetEpoch && v in aggs[i].members && v in aggs[j].members
      ensures aggs[i].incDelay <= aggs[j].incDelay
    {
      assert atts[i] in atts && atts[j] in atts;
      MemberSlot(atts[i], committees, canon, forks, v);
      MemberSlot(atts[j], committees, canon, forks, v);
      hide CommitteesOf, FlagsOf, Attesting;
      var a :| (a, atts[i].slot) in committees && v in committees[(a, atts[i].slot)];
      var b :| (b, atts[j].slot) in committees && v in committees[(b, atts[j].slot)];
      assert atts[i].slot == atts[j].slot;
    }
  }
}
