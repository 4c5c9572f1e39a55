/** The proposer's share of attestation rewards: each aggregate pays for the flags it is credited with,
    rounded down once per aggregate. Nothing is paid twice and nothing is lost but the rounding. */
module ProposalRewards {
  import opened Constants
  import opened Options
  import opened Sums
  import opened Summary
  import opened AttestationConstants
  import opened Attestation
  import opened AttestationAccounting

  /** `proposerAttPartReward`, rounded down as its caller does. */
  function ProposerAttPartReward(r: int): int {
    r / ((WEIGHT_DENOMINATOR - PROPOSER_WEIGHT) * WEIGHT_DENOMINATOR / PROPOSER_WEIGHT)
  }

  /** What one listed validator adds for a flag of the given weight. */
  function Worth(base: int -> nat, weight: nat): int -> int {
    v => base(v) * weight
  }

  ghost function Numerator(base: int -> nat): Credit -> int {
    (c: Credit) => SumSeq(c.source, Worth(base, TIMELY_SOURCE_WEIGHT))
       + SumSeq(c.target, Worth(base, TIMELY_TARGET_WEIGHT))
       + SumSeq(c.head, Worth(base, TIMELY_HEAD_WEIGHT))
  }

  /** The reward of one aggregate. */
  ghost function Share(base: int -> nat): Credit -> int {
    (c: Credit) => ProposerAttPartReward(Numerator(base)(c))
  }

  // ---- sums over the stored lists --------------------------------------------------------------

  ghost function BlockWorth(lists: map<int, seq<Credit>>, h: Credit -> int): int -> int {
    b => if b in lists then SumSeq(lists[b], h) else 0
  }

  ghost function TotalWorth(lists: map<int, seq<Credit>>, h: Credit -> int): int {
    SumSet(lists.Keys, BlockWorth(lists, h))
  }

  lemma PushWorth(lists: map<int, seq<Credit>>, block: int, c: Credit, h: Credit -> int)
    requires block in lists
    ensures TotalWorth(lists[block := lists[block] + [c]], h) == TotalWorth(lists, h) + h(c)
  {
    var lists' := lists[block := lists[block] + [c]];
    assert lists'.Keys == lists.Keys;
    SumSeqSnoc(lists[block], c, h);
    SumSetUpdate(lists.Keys, block, BlockWorth(lists, h), BlockWorth(lists', h));
  }

  lemma EmptyWorth(lists: map<int, seq<Credit>>, h: Credit -> int)
    requires forall b :: b in lists ==> lists[b] == []
    ensures TotalWorth(lists, h) == 0
  {
    forall b | b in lists
      ensures BlockWorth(lists, h)(b) == 0
    {
      assert SumSeq(lists[b], h) == 0;
    }
    SumSetZero(lists.Keys, BlockWorth(lists, h));
  }

  // ---- conservation ----------------------------------------------------------------------------

  /** The (target epoch, validator) pairs whose flag is set. */
  ghost function Flagged(st: Storage, f: Flag): set<(int, int)> {
    set te, v | te in st && v in st[te].summary && Has(st, te, v, f) :: (te, v)
  }

  ghost function PairWorth(base: int -> nat, weight: nat): ((int, int)) -> int {
    (p: (int, int)) => base(p.1) * weight
  }

  ghost function FlagWorth(st: Storage, base: int -> nat, f: Flag): int {
    SumSet(Flagged(st, f), PairWorth(base, f.Weight()))
  }

  /** The worth of all flags in the store. */
  ghost function FlagsWorth(st: Storage, base: int -> nat): int {
    FlagWorth(st, base, SourceFlag) + FlagWorth(st, base, TargetFlag) + FlagWorth(st, base, HeadFlag)
  }

  lemma HasOnlyInStore(st: Storage, te: int, v: int, f: Flag)
    ensures Has(st, te, v, f) <==> (te, v) in Flagged(st, f)
  {
    if Has(st, te, v, f) {
      assert te in st && v in st[te].summary;
    }
  }

  lemma SameFlags(st: Storage, st': Storage, f: Flag)
    requires forall te, v :: Has(st, te, v, f) <==> Has(st', te, v, f)
    ensures Flagged(st, f) == Flagged(st', f)
  {
    forall te, v
      ensures (te, v) in Flagged(st, f) <==> (te, v) in Flagged(st', f)
    {
      HasOnlyInStore(st, te, v, f);
      HasOnlyInStore(st', te, v, f);
    }
  }

  /** A flag newly set is a validator newly listed, and the other way round. */
  lemma IncludeOneBalance(w: World, te: int, v: int, incDelay: int, flags: Flags, base: int -> nat, f: Flag)
    ensures var w' := IncludeOne(w, te, v, incDelay, flags);
      FlagWorth(w'.st, base, f) - FlagWorth(w.st, base, f)
      == SumSeq(Listed(w'.credit, f), Worth(base, f.Weight())) - SumSeq(Listed(w.credit, f), Worth(base, f.Weight()))
  {
    var w' := IncludeOne(w, te, v, incDelay, flags);
    IncludeOneEffect(w, te, v, incDelay, flags, te, v, f);
    NewFlags(w, te, v, incDelay, flags, f);
    HasOnlyInStore(w.st, te, v, f);
    hide IncludeOne, Has, Flagged, SumSeq, SumSet;
    if !Has(w.st, te, v, f) && f.In(flags) {
      SumSetAdd(Flagged(w.st, f), (te, v), PairWorth(base, f.Weight()));
      SumSeqSnoc(Listed(w.credit, f), v, Worth(base, f.Weight()));
    } else {
      assert Listed(w.credit, f) + [] == Listed(w.credit, f);
      assert Flagged(w'.st, f) == Flagged(w.st, f);
    }
  }

  lemma NewFlags(w: World, te: int, v: int, incDelay: int, flags: Flags, f: Flag)
    ensures Flagged(IncludeOne(w, te, v, incDelay, flags).st, f)
         == Flagged(w.st, f) + if !Has(w.st, te, v, f) && f.In(flags) then {(te, v)} else {}
  {
    var w' := IncludeOne(w, te, v, incDelay, flags);
    forall e, u
      ensures (e, u) in Flagged(w'.st, f) <==> (e, u) in Flagged(w.st, f) || ((e, u) == (te, v) && !Has(w.st, te, v, f) && f.In(flags))
    {
      IncludeOneEffect(w, te, v, incDelay, flags, e, u, f);
      HasOnlyInStore(w.st, e, u, f);
      HasOnlyInStore(w'.st, e, u, f);
      hide IncludeOne, Has, Flagged;
    }
    hide IncludeOne, Has;
  }

  lemma {:induction false} IncludeAllBalance(w: World, te: int, vs: seq<int>, incDelay: int, flags: Flags, base: int -> nat, f: Flag)
    ensures var w' := IncludeAll(w, te, vs, incDelay, flags);
      FlagWorth(w'.st, base, f) - FlagWorth(w.st, base, f)
      == SumSeq(Listed(w'.credit, f), Worth(base, f.Weight())) - SumSeq(Listed(w.credit, f), Worth(base, f.Weight()))
  {
    if vs != [] {
      var init := vs[..|vs| - 1];
      IncludeAllBalance(w, te, init, incDelay, flags, base, f);
      IncludeOneBalance(IncludeAll(w, te, init, incDelay, flags), te, vs[|vs| - 1], incDelay, flags, base, f);
      hide IncludeOne, FlagWorth, Listed, Worth;
    }
  }

  lemma RunAggregateFlagWorth(st: Storage, epoch: int, agg: Aggregate, base: int -> nat, f: Flag)
    ensures FlagWorth(RunAggregate(st, epoch, agg), base, f) - FlagWorth(st, base, f)
         == SumSeq(Listed(CreditOf(st, agg), f), Worth(base, f.Weight()))
  {
    var w := IncludeAll(World(st, NO_CREDIT), agg.targetEpoch, agg.members, agg.incDelay, agg.flags);
    IncludeAllBalance(World(st, NO_CREDIT), agg.targetEpoch, agg.members, agg.incDelay, agg.flags, base, f);
    forall te, v
      ensures Has(w.st, te, v, f) <==> Has(RunAggregate(st, epoch, agg), te, v, f)
    {
      CloseKeepsDuties(st, epoch, agg, te, v);
      hide RunAggregate, IncludeAll, DutyAt;
    }
    SameFlags(w.st, RunAggregate(st, epoch, agg), f);
    hide RunAggregate, IncludeAll, Flagged, Has, Worth;
  }

  lemma RunAggregateBalance(st: Storage, epoch: int, agg: Aggregate, base: int -> nat)
    ensures FlagsWorth(RunAggregate(st, epoch, agg), base) - FlagsWorth(st, base) == Numerator(base)(CreditOf(st, agg))
  {
    RunAggregateFlagWorth(st, epoch, agg, base, SourceFlag);
    RunAggregateFlagWorth(st, epoch, agg, base, TargetFlag);
    RunAggregateFlagWorth(st, epoch, agg, base, HeadFlag);
    hide RunAggregate, CreditOf, FlagWorth, Worth;
  }

  /** What the lists are worth grows by exactly what the flags are worth, and one list is stored per aggregate. */
  ghost predicate Balanced(st: Storage, st': Storage, epoch: int, base: int -> nat, n: nat) {
    && ListsAt(st', epoch).Keys == ListsAt(st, epoch).Keys
    && TotalWorth(ListsAt(st', epoch), Numerator(base)) - TotalWorth(ListsAt(st, epoch), Numerator(base))
       == FlagsWorth(st', base) - FlagsWorth(st, base)
    && TotalWorth(ListsAt(st', epoch), One) == TotalWorth(ListsAt(st, epoch), One) + n
  }

  lemma ListsGrow(st: Storage, epoch: int, agg: Aggregate, h: Credit -> int)
    requires agg.block in ListsAt(st, epoch)
    ensures ListsAt(RunAggregate(st, epoch, agg), epoch).Keys == ListsAt(st, epoch).Keys
    ensures TotalWorth(ListsAt(RunAggregate(st, epoch, agg), epoch), h) == TotalWorth(ListsAt(st, epoch), h) + h(CreditOf(st, agg))
  {
    RunAggregateLists(st, epoch, agg);
    hide RunAggregate, CreditOf, ListsAt, TotalWorth;
    PushWorth(ListsAt(st, epoch), agg.block, CreditOf(st, agg), h);
  }

  lemma RunAggregateBalanced(st: Storage, epoch: int, agg: Aggregate, base: int -> nat)
    requires agg.block in ListsAt(st, epoch)
    ensures Balanced(st, RunAggregate(st, epoch, agg), epoch, base, 1)
  {
    hide RunAggregate, CreditOf, FlagsWorth, ListsAt, TotalWorth, Numerator;
    RunAggregateBalance(st, epoch, agg, base);
    ListsGrow(st, epoch, agg, Numerator(base));
    ListsGrow(st, epoch, agg, One);
  }

  lemma BalancedTransitive(a: Storage, b: Storage, c: Storage, epoch: int, base: int -> nat, n: nat, m: nat)
    requires Balanced(a, b, epoch, base, n) && Balanced(b, c, epoch, base, m)
    ensures Balanced(a, c, epoch, base, n + m)
  {
    hide TotalWorth, FlagsWorth, ListsAt, Numerator;
  }

  lemma {:induction false} RunBalance(st: Storage, epoch: int, aggs: seq<Aggregate>, base: int -> nat)
    requires BlocksKnown(st, epoch, aggs)
    ensures Balanced(st, RunAll(st, epoch, aggs), epoch, base, |aggs|)
  {
    if aggs != [] {
      var init, agg := aggs[..|aggs| - 1], aggs[|aggs| - 1];
      BlocksKnownInit(st, epoch, aggs);
      RunBalance(st, epoch, init, base);
      var mid := RunAll(st, epoch, init);
      assert agg.block in ListsAt(mid, epoch);
      hide BlocksKnown, Balanced, RunAggregate, ListsAt;
      RunAggregateBalanced(mid, epoch, agg, base);
      BalancedTransitive(st, mid, RunAll(st, epoch, aggs), epoch, base, |init|, 1);
    }
  }

  /** Every aggregate sits in a block whose list exists. */
  ghost predicate BlocksKnown(st: Storage, epoch: int, aggs: seq<Aggregate>) {
    forall i :: 0 <= i < |aggs| ==> aggs[i].block in ListsAt(st, epoch)
  }

  lemma BlocksKnownInit(st: Storage, epoch: int, aggs: seq<Aggregate>)
    requires BlocksKnown(st, epoch, aggs) && aggs != []
    ensures BlocksKnown(st, epoch, aggs[..|aggs| - 1]) && aggs[|aggs| - 1].block in ListsAt(st, epoch)
  {
    hide ListsAt;
    assert forall i :: 0 <= i < |aggs| - 1 ==> aggs[..|aggs| - 1][i] == aggs[i];
  }

  function One(c: Credit): int {
    1
  }

  // ---- rounding --------------------------------------------------------------------------------

  lemma {:induction false} SeqRounding(cs: seq<Credit>, base: int -> nat)
    ensures 448 * SumSeq(cs, Share(base)) <= SumSeq(cs, Numerator(base)) <= 448 * SumSeq(cs, Share(base)) + 447 * SumSeq(cs, One)
  {
    if cs != [] {
      SeqRounding(cs[..|cs| - 1], base);
      var n := Numerator(base)(cs[|cs| - 1]);
      assert Share(base)(cs[|cs| - 1]) == n / 448;
      hide Numerator, Share;
      assert 448 * (n / 448) <= n <= 448 * (n / 448) + 447;
    }
  }

  lemma Rounding(lists: map<int, seq<Credit>>, base: int -> nat)
    ensures var r, n, a := TotalWorth(lists, Share(base)), TotalWorth(lists, Numerator(base)), TotalWorth(lists, One);
      448 * r <= n <= 448 * r + 447 * a
  {
    var r, n, a := BlockWorth(lists, Share(base)), BlockWorth(lists, Numerator(base)), BlockWorth(lists, One);
    forall b | b in lists.Keys
      ensures 448 * r(b) <= n(b) <= 448 * r(b) + 447 * a(b)
    {
      SeqRounding(lists[b], base);
      hide Numerator, Share, SumSeq;
    }
    SumRounding(lists.Keys, r, n, a);
  }

  lemma SumRounding(s: set<int>, r: int -> int, n: int -> int, a: int -> int)
    requires forall b :: b in s ==> 448 * r(b) <= n(b) <= 448 * r(b) + 447 * a(b)
    ensures 448 * SumSet(s, r) <= SumSet(s, n) <= 448 * SumSet(s, r) + 447 * SumSet(s, a)
  {
    var r', a' := (b: int) => 448 * r(b), (b: int) => 447 * a(b);
    var upper := (b: int) => r'(b) + a'(b);
    SumSetScale(s, r, 448, r');
    SumSetScale(s, a, 447, a');
    SumSetPlus(s, r', a', upper);
    forall b | b in s
      ensures r'(b) <= n(b) <= upper(b)
    {
    }
    SumSetMono(s, r', n);
    SumSetMono(s, n, upper);
  }

  /** Proposer-reward conservation: the rewards of all aggregates together amount to the worth of all flags,
      short of it by less than one unit (447/448) per aggregate. */
  lemma ProposerRewardConservation(st: Storage, epoch: int, aggs: seq<Aggregate>, base: int -> nat)
    requires BlocksKnown(st, epoch, aggs)
    requires forall b :: b in ListsAt(st, epoch) ==> ListsAt(st, epoch)[b] == []
    requires forall te, v, f :: !Has(st, te, v, f)
    ensures var st' := RunAll(st, epoch, aggs);
            var rewards, worth := TotalWorth(ListsAt(st', epoch), Share(base)), FlagsWorth(st', base);
      worth - 447 * |aggs| <= 448 * rewards <= worth
  {
    var st' := RunAll(st, epoch, aggs);
    RunBalance(st, epoch, aggs, base);
    EmptyWorth(ListsAt(st, epoch), Numerator(base));
    EmptyWorth(ListsAt(st, epoch), One);
    NoFlagsNoWorth(st, base, SourceFlag);
    NoFlagsNoWorth(st, base, TargetFlag);
    NoFlagsNoWorth(st, base, HeadFlag);
    Rounding(ListsAt(st', epoch), base);
    hide RunAll, Numerator, Share, FlagWorth, Has, ListsAt, BlockWorth;
  }

  lemma NoFlagsNoWorth(st: Storage, base: int -> nat, f: Flag)
    requires forall te, v, g :: !Has(st, te, v, g)
    ensures FlagWorth(st, base, f) == 0
  {
    hide Has;
    assert Flagged(st, f) == {};
  }

  // ---- the reference definition ----------------------------------------------------------------

  function Elements(s: seq<int>): set<int> {
    set v | v in s
  }

  /** What one attesting index adds to `proposer_reward_numerator` in `process_attestation` of the Altair
      beacon-chain specification: base reward times the weight of each flag that is earned and not yet set. */
  ghost function SpecShareOf(st: Storage, agg: Aggregate, base: int -> nat): int -> int {
    v => SpecFlagShare(st, agg, base, SourceFlag)(v) + SpecFlagShare(st, agg, base, TargetFlag)(v) + SpecFlagShare(st, agg, base, HeadFlag)(v)
  }

  ghost function SpecFlagShare(st: Storage, agg: Aggregate, base: int -> nat, f: Flag): int -> int {
    v => if f.In(agg.flags) && !Has(st, agg.targetEpoch, v, f) then base(v) * f.Weight() else 0
  }

  /** The proposer reward of `process_attestation`: a sum over the set of attesting indices, floor-divided by
      `(WEIGHT_DENOMINATOR - PROPOSER_WEIGHT) * WEIGHT_DENOMINATOR // PROPOSER_WEIGHT`. */
  ghost function SpecProposerReward(st: Storage, agg: Aggregate, base: int -> nat): int {
    SumSet(Elements(agg.members), SpecShareOf(st, agg, base)) / ((64 - 8) * 64 / 8)
  }

  lemma ListedOnce(st: Storage, agg: Aggregate, f: Flag, v: int)
    ensures Times(Listed(CreditOf(st, agg), f), v)
         == if v in Elements(agg.members) && f.In(agg.flags) && !Has(st, agg.targetEpoch, v, f) then 1 else 0
  {
    RunAggregateEffect(st, 0, agg, agg.targetEpoch, v, f);
    hide CreditOf, Has, Listed;
  }

  lemma CreditMatchesSpecFlag(st: Storage, agg: Aggregate, base: int -> nat, f: Flag)
    ensures SumSeq(Listed(CreditOf(st, agg), f), Worth(base, f.Weight()))
         == SumSet(Elements(agg.members), SpecFlagShare(st, agg, base, f))
  {
    hide CreditOf, Has, Listed, Elements, SumSeq, SumSet;
    var list := Listed(CreditOf(st, agg), f);
    var all := Elements(agg.members);
    forall v | v in list
      ensures v in all
    {
      ListedOnce(st, agg, f, v);
      assert Times(list, v) > 0;
    }
    forall v | v in all
      ensures SpecFlagShare(st, agg, base, f)(v) == multiset(list)[v] * Worth(base, f.Weight())(v)
    {
      ListedOnce(st, agg, f, v);
      assert Times(list, v) == multiset(list)[v];
    }
    SumSeqByElement(list, all, Worth(base, f.Weight()), SpecFlagShare(st, agg, base, f));
  }

  lemma SplitShares(s: set<int>, st: Storage, agg: Aggregate, base: int -> nat)
    ensures SumSet(s, SpecShareOf(st, agg, base))
         == SumSet(s, SpecFlagShare(st, agg, base, SourceFlag)) + SumSet(s, SpecFlagShare(st, agg, base, TargetFlag))
            + SumSet(s, SpecFlagShare(st, agg, base, HeadFlag))
  {
    var source, target, head := SpecFlagShare(st, agg, base, SourceFlag), SpecFlagShare(st, agg, base, TargetFlag), SpecFlagShare(st, agg, base, HeadFlag);
    var both := (v: int) => source(v) + target(v);
    SumSetPlus(s, source, target, both);
    SumSetPlus(s, both, head, SpecShareOf(st, agg, base));
  }

  /** Each aggregate's share is the proposer reward of the specification, whatever was included before it. */
  lemma ShareMatchesSpec(st: Storage, agg: Aggregate, base: int -> nat)
    ensures Share(base)(CreditOf(st, agg)) == SpecProposerReward(st, agg, base)
  {
    CreditMatchesSpecFlag(st, agg, base, SourceFlag);
    CreditMatchesSpecFlag(st, agg, base, TargetFlag);
    CreditMatchesSpecFlag(st, agg, base, HeadFlag);
    SplitShares(Elements(agg.members), st, agg, base);
    hide CreditOf, SpecFlagShare, SpecShareOf, Worth, SumSet, SumSeq;
    var c := CreditOf(st, agg);
    assert c.source == Listed(c, SourceFlag) && c.target == Listed(c, TargetFlag) && c.head == Listed(c, HeadFlag);
    assert Numerator(base)(c) == SumSet(Elements(agg.members), SpecShareOf(st, agg, base));
  }
}
