/** Attestation duties of one processing round: the aggregates found in the blocks of two epochs are
    folded, in block order, into the per-validator attestation fields. */
module Attestation {
  import opened Constants
  import opened Options
  import opened Summary
  import opened AttestationConstants

  type Root = string

  datatype Forks = Forks(deneb: int, electra: int)

  /** An attestation as it stands in a block. */
  datatype BlockAttestation = BlockAttestation(
    aggregationBits: seq<bool>, committeeBits: seq<bool>,
    head: Root, targetRoot: Root, targetEpoch: int, sourceRoot: Root, sourceEpoch: int,
    slot: int, index: int)

  datatype SlotAttestation = SlotAttestation(
    includedInBlock: int, aggregationBits: seq<bool>, committeeIndexes: Option<seq<int>>,
    head: Root, targetRoot: Root, targetEpoch: int, sourceRoot: Root, sourceEpoch: int,
    slot: int, committeeIndex: int)

  datatype CommitteeInfo = CommitteeInfo(index: int, slot: int, validators: seq<int>)

  /** Committees by index and slot. */
  type Committees = map<(int, int), seq<int>>

  // ---- which validators an aggregate stands for ------------------------------------------------

  /** `BitArray.get`: reading past the end yields false. */
  predicate Bit(bits: seq<bool>, i: int) {
    0 <= i < |bits| && bits[i]
  }

  /** The members of one committee whose bit is set, in committee order. */
  function Attesting(bits: seq<bool>, committee: seq<int>, offset: nat): seq<int> {
    if committee == [] then []
    else
      var last := |committee| - 1;
      Attesting(bits, committee[..last], offset) + if Bit(bits, offset + last) then [committee[last]] else []
  }

  function Flatten(committees: seq<seq<int>>): seq<int> {
    if committees == [] then []
    else Flatten(committees[..|committees| - 1]) + committees[|committees| - 1]
  }

  /** The bit positions `from, from + 1, ...`, `n` of them. */
  ghost function Positions(from: int, n: nat): seq<int> {
    if n == 0 then [] else Positions(from, n - 1) + [from + n - 1]
  }

  lemma {:induction false} PositionsConcat(from: int, a: nat, b: nat)
    ensures Positions(from, a) + Positions(from + a, b) == Positions(from, a + b)
  {
    if b > 0 {
      PositionsConcat(from, a, b - 1);
    }
  }

  lemma {:induction false} AttestingConcat(bits: seq<bool>, a: seq<int>, b: seq<int>, offset: nat)
    ensures Attesting(bits, a + b, offset) == Attesting(bits, a, offset) + Attesting(bits, b, offset + |a|)
  {
    if b == [] {
      assert a + b == a;
    } else {
      var last := |b| - 1;
      AttestingConcat(bits, a, b[..last], offset);
      assert (a + b)[..|a + b| - 1] == a + b[..last];
    }
  }

  /** The attesters are exactly the members facing a set bit: `get_attesting_indices` read as a zip
      of the bitfield with the concatenated committees. */
  lemma {:induction false} AttestingIsZip(bits: seq<bool>, committee: seq<int>, offset: nat, v: int)
    ensures v in Attesting(bits, committee, offset)
       <==> exists i :: 0 <= i < |committee| && committee[i] == v && Bit(bits, offset + i)
  {
    if committee != [] {
      var last := |committee| - 1;
      AttestingIsZip(bits, committee[..last], offset, v);
      if v in Attesting(bits, committee[..last], offset) {
        var i :| 0 <= i < last && committee[..last][i] == v && Bit(bits, offset + i);
        assert committee[i] == v && Bit(bits, offset + i);
      }
      if i :| 0 <= i < |committee| && committee[i] == v && Bit(bits, offset + i) {
        if i < last {
          assert committee[..last][i] == v && Bit(bits, offset + i);
        }
      }
    }
  }

  /** Bits past the committee, such as the delimiter of an SSZ Bitlist, never matter. */
  lemma {:induction false} TrailingBitsNeverMatter(bits: seq<bool>, bits': seq<bool>, committee: seq<int>, offset: nat)
    requires forall i :: offset <= i < offset + |committee| ==> Bit(bits, i) == Bit(bits', i)
    ensures Attesting(bits, committee, offset) == Attesting(bits', committee, offset)
  {
    if committee != [] {
      TrailingBitsNeverMatter(bits, bits', committee[..|committee| - 1], offset);
    }
  }

  // ---- what one inclusion does -----------------------------------------------------------------

  /** The store together with the lists of the attestation being processed. */
  datatype World = World(st: Storage, credit: Credit)

  /** `processed?.att_inc_delay || attIncDelay`: zero counts as absent. */
  function FirstDelay(known: Option<int>, incDelay: int): int {
    if known.Some? && known.value != 0 then known.value else incDelay
  }

  function PushIf(list: seq<int>, known: Option<bool>, earned: bool, v: int): seq<int> {
    if !Truthy(known) && earned then list + [v] else list
  }

  function CreditOne(c: Credit, p: AttDuty, flags: Flags, v: int): Credit {
    Credit(PushIf(c.source, p.source, flags.source, v),
           PushIf(c.target, p.target, flags.target, v),
           PushIf(c.head, p.head, flags.head, v))
  }

  function AttAfter(p: AttDuty, incDelay: int, flags: Flags): AttDuty {
    AttDuty(Some(true), Some(FirstDelay(p.incDelay, incDelay)),
            Some(Truthy(p.source) || flags.source), Some(Truthy(p.target) || flags.target),
            Some(Truthy(p.head) || flags.head))
  }

  function IncludeOne(w: World, targetEpoch: int, v: int, incDelay: int, flags: Flags): World {
    var p := DutyAt(w.st, targetEpoch, v).att;
    World(PatchDuty(w.st, targetEpoch, v, NO_DUTY.(att := AttAfter(p, incDelay, flags))),
          CreditOne(w.credit, p, flags, v))
  }

  function IncludeAll(w: World, targetEpoch: int, vs: seq<int>, incDelay: int, flags: Flags): World {
    if vs == [] then w
    else IncludeOne(IncludeAll(w, targetEpoch, vs[..|vs| - 1], incDelay, flags), targetEpoch, vs[|vs| - 1], incDelay, flags)
  }

  lemma {:induction false} IncludeAllConcat(w: World, te: int, a: seq<int>, b: seq<int>, incDelay: int, flags: Flags)
    ensures IncludeAll(w, te, a + b, incDelay, flags) == IncludeAll(IncludeAll(w, te, a, incDelay, flags), te, b, incDelay, flags)
  {
    hide IncludeOne;
    if b == [] {
      assert a + b == a;
    } else {
      var init := b[..|b| - 1];
      IncludeAllConcat(w, te, a, init, incDelay, flags);
      assert (a + b)[..|a + b| - 1] == a + init;
    }
  }

  // ---- one aggregate ---------------------------------------------------------------------------

  /** What the fold needs to know about one attestation. */
  datatype Aggregate = Aggregate(block: int, slot: int, targetEpoch: int, incDelay: int, flags: Flags, members: seq<int>)

  predicate IsElectra(block: int, forks: Forks) {
    block / SLOTS_PER_EPOCH >= forks.electra
  }

  function LookupAll(committees: Committees, indexes: seq<int>, slot: int): Option<seq<seq<int>>> {
    if indexes == [] then Some([])
    else
      var init := LookupAll(committees, indexes[..|indexes| - 1], slot);
      var key := (indexes[|indexes| - 1], slot);
      if init.None? || key !in committees then None else Some(init.value + [committees[key]])
  }

  /** The committees an attestation speaks for; None where the program throws. */
  function CommitteesOf(att: SlotAttestation, committees: Committees, forks: Forks): Option<seq<seq<int>>> {
    if IsElectra(att.includedInBlock, forks) then
      if att.committeeIndexes.None? then None else LookupAll(committees, att.committeeIndexes.value, att.slot)
    else LookupAll(committees, [att.committeeIndex], att.slot)
  }

  function FlagsOf(att: SlotAttestation, canon: int -> Root, forks: Forks): Flags {
    GetAttestationFlags(att.includedInBlock - att.slot,
                        att.sourceRoot == canon(att.sourceEpoch * SLOTS_PER_EPOCH),
                        att.targetRoot == canon(att.targetEpoch * SLOTS_PER_EPOCH),
                        att.head == canon(att.slot),
                        att.includedInBlock / SLOTS_PER_EPOCH >= forks.deneb)
  }

  function Resolve(att: SlotAttestation, committees: Committees, canon: int -> Root, forks: Forks): Option<Aggregate> {
    var cs := CommitteesOf(att, committees, forks);
    if cs.None? then None
    else Some(Aggregate(att.includedInBlock, att.slot, att.targetEpoch, att.includedInBlock - att.slot,
                        FlagsOf(att, canon, forks), Attesting(att.aggregationBits, Flatten(cs.value), 0)))
  }

  /** File the finished lists under the including block. */
  function Close(st: Storage, epoch: int, block: int, credit: Credit): Storage {
    var lists := MetaAt(st, epoch).att.attestations;
    if block in lists then
      PatchMeta(st, epoch, MetaPatch(None, Some(lists[block := lists[block] + [credit]]), None))
    else st
  }

  function CreditOf(st: Storage, agg: Aggregate): Credit {
    IncludeAll(World(st, NO_CREDIT), agg.targetEpoch, agg.members, agg.incDelay, agg.flags).credit
  }

  function RunAggregate(st: Storage, epoch: int, agg: Aggregate): Storage {
    var w := IncludeAll(World(st, NO_CREDIT), agg.targetEpoch, agg.members, agg.incDelay, agg.flags);
    Close(w.st, epoch, agg.block, w.credit)
  }

  function RunAll(st: Storage, epoch: int, aggs: seq<Aggregate>): Storage {
    if aggs == [] then st
    else RunAggregate(RunAll(st, epoch, aggs[..|aggs| - 1]), epoch, aggs[|aggs| - 1])
  }

  /** Including validators leaves the metadata of every epoch alone. */
  lemma {:induction false} IncludeAllKeepsMeta(w: World, te: int, vs: seq<int>, incDelay: int, flags: Flags, e: int)
    ensures MetaAt(IncludeAll(w, te, vs, incDelay, flags).st, e) == MetaAt(w.st, e)
  {
    if vs != [] {
      IncludeAllKeepsMeta(w, te, vs[..|vs| - 1], incDelay, flags, e);
    }
  }

  // ---- collecting the work ---------------------------------------------------------------------

  /** Indexes of the set bits, ascending. */
  function TrueBits(bits: seq<bool>): seq<int> {
    if bits == [] then []
    else
      var last := |bits| - 1;
      TrueBits(bits[..last]) + if bits[last] then [last] else []
  }

  /** `get_committee_indices` of EIP-7549: the set positions, each once and in ascending order. */
  lemma {:induction false} TrueBitsAreTheSetBits(bits: seq<bool>)
    ensures forall i :: i in TrueBits(bits) <==> 0 <= i < |bits| && bits[i]
    ensures forall a, b :: 0 <= a < b < |TrueBits(bits)| ==> TrueBits(bits)[a] < TrueBits(bits)[b]
  {
    if bits != [] {
      var last := |bits| - 1;
      TrueBitsAreTheSetBits(bits[..last]);
      assert forall i :: 0 <= i < last ==> bits[..last][i] == bits[i];
      var t := TrueBits(bits[..last]);
      assert forall a :: 0 <= a < |t| ==> t[a] in t;
    }
  }

  function FromBlock(block: int, att: BlockAttestation, forks: Forks): SlotAttestation {
    SlotAttestation(block, att.aggregationBits,
                    if IsElectra(block, forks) then Some(TrueBits(att.committeeBits)) else None,
                    att.head, att.targetRoot, att.targetEpoch, att.sourceRoot, att.sourceEpoch, att.slot, att.index)
  }

  function FromBlockAll(block: int, atts: seq<BlockAttestation>, forks: Forks): seq<SlotAttestation> {
    seq(|atts|, i requires 0 <= i < |atts| => FromBlock(block, atts[i], forks))
  }

  /** All attestations in the blocks of slots `lo..hi`; a missing slot contributes none. */
  function Collected(blocks: map<int, seq<BlockAttestation>>, lo: int, hi: int, forks: Forks): seq<SlotAttestation>
    requires lo <= hi
    decreases hi - lo
  {
    if lo == hi then []
    else Collected(blocks, lo, hi - 1, forks) + if hi - 1 in blocks then FromBlockAll(hi - 1, blocks[hi - 1], forks) else []
  }

  predicate Relevant(epoch: int, att: SlotAttestation) {
    !(att.slot <= (epoch - 1) * SLOTS_PER_EPOCH - 1)
  }

  function RelevantOf(epoch: int, atts: seq<SlotAttestation>): seq<SlotAttestation> {
    if atts == [] then []
    else RelevantOf(epoch, atts[..|atts| - 1]) + if Relevant(epoch, atts[|atts| - 1]) then [atts[|atts| - 1]] else []
  }

  predicate AllResolve(atts: seq<SlotAttestation>, committees: Committees, canon: int -> Root, forks: Forks) {
    forall i :: 0 <= i < |atts| ==> Resolve(atts[i], committees, canon, forks).Some?
  }

  /** The including block of each has a list to file under. */
  predicate AllPlaced(atts: seq<SlotAttestation>, lists: map<int, seq<Credit>>) {
    forall i :: 0 <= i < |atts| ==> atts[i].includedInBlock in lists
  }

  function Aggregates(atts: seq<SlotAttestation>, committees: Committees, canon: int -> Root, forks: Forks): seq<Aggregate>
    requires AllResolve(atts, committees, canon, forks)
  {
    seq(|atts|, i requires 0 <= i < |atts| => Resolve(atts[i], committees, canon, forks).value)
  }

  /** A committee member has not attested until an aggregate says so. */
  function Expect(st: Storage, epoch: int, v: int): Storage {
    PatchDuty(st, epoch, v, NO_DUTY.(att := NO_ATT.(happened := Some(false))))
  }

  function ExpectAll(st: Storage, epoch: int, vs: seq<int>): Storage {
    if vs == [] then st else Expect(ExpectAll(st, epoch, vs[..|vs| - 1]), epoch, vs[|vs| - 1])
  }

  function ExpectCommittees(st: Storage, epoch: int, infos: seq<CommitteeInfo>): Storage {
    if infos == [] then st
    else ExpectAll(ExpectCommittees(st, epoch, infos[..|infos| - 1]), epoch, infos[|infos| - 1].validators)
  }

  function AddCommittees(committees: Committees, infos: seq<CommitteeInfo>): Committees {
    if infos == [] then committees
    else
      var last := infos[|infos| - 1];
      AddCommittees(committees, infos[..|infos| - 1])[(last.index, last.slot) := last.validators]
  }

  function CommitteeMap(prev: seq<CommitteeInfo>, curr: seq<CommitteeInfo>): Committees {
    AddCommittees(AddCommittees(map[], prev), curr)
  }

  /** The whole check, as a function of its inputs and the store. */
  function Checked(st: Storage, epoch: int, aggs: seq<Aggregate>, prev: seq<CommitteeInfo>, curr: seq<CommitteeInfo>): Storage {
    RunAll(ExpectCommittees(ExpectCommittees(st, epoch - 1, prev), epoch, curr), epoch, aggs)
  }

  // ---- the service -----------------------------------------------------------------------------

  class AttestationService {
    const summary: SummaryService
    var processedEpoch: int

    constructor (summary: SummaryService)
      ensures this.summary == summary
    {
      this.summary := summary;
      processedEpoch := 0;
    }

    /** One member with its bit set: read the record, extend the lists, write the record back. */
    method IncludeValidator(targetEpoch: int, v: int, incDelay: int, flags: Flags, credit: Credit) returns (credit': Credit)
      modifies summary
      ensures World(summary.storage, credit') == IncludeOne(World(old(summary.storage), credit), targetEpoch, v, incDelay, flags)
    {
      var processed := summary.Get(targetEpoch, v);
      var p := if processed.Some? then processed.value.att else NO_ATT;
      credit' := CreditOne(credit, p, flags, v);
      summary.Set(targetEpoch, v, NO_DUTY.(att := AttAfter(p, incDelay, flags)));
      TouchedPatch(old(summary.storage), targetEpoch, v, NO_DUTY.(att := AttAfter(p, incDelay, flags)));
    }

    /** Walks one committee at its offset. `positions` lists the bits consulted. */
    method ProcessAttestationCommittee(targetEpoch: int, bits: seq<bool>, committee: seq<int>, committeeOffset: nat,
                                       incDelay: int, flags: Flags, credit: Credit)
      returns (credit': Credit, ghost positions: seq<int>)
      modifies summary
      ensures World(summary.storage, credit')
           == IncludeAll(World(old(summary.storage), credit), targetEpoch, Attesting(bits, committee, committeeOffset), incDelay, flags)
      ensures positions == Positions(committeeOffset, |committee|)
    {
      ghost var w := World(summary.storage, credit);
      credit', positions := credit, [];
      for i := 0 to |committee|
        invariant World(summary.storage, credit') == IncludeAll(w, targetEpoch, Attesting(bits, committee[..i], committeeOffset), incDelay, flags)
        invariant positions == Positions(committeeOffset, i)
      {
        WalkOne(w, targetEpoch, bits, committee, committeeOffset, i, incDelay, flags);
        positions := positions + [committeeOffset + i];
        if Bit(bits, committeeOffset + i) {
          credit' := IncludeValidator(targetEpoch, committee[i], incDelay, flags, credit');
        }
      }
      assert committee[..|committee|] == committee;
    }

    method ProcessAttestation(epoch: int, att: SlotAttestation, committees: Committees, canon: int -> Root, forks: Forks)
      returns (ok: bool, ghost positions: seq<int>)
      modifies summary
      ensures ok <==> && CommitteesOf(att, committees, forks).Some?
                      && att.includedInBlock in MetaAt(old(summary.storage), epoch).att.attestations
      ensures ok ==> && summary.storage == RunAggregate(old(summary.storage), epoch, Resolve(att, committees, canon, forks).value)
                     && positions == Positions(0, |Flatten(CommitteesOf(att, committees, forks).value)|)
    {
      hide IncludeAll, Attesting, Flatten, LookupAll, FlagsOf, Close;
      ok, positions := false, [];
      var incDelay := att.includedInBlock - att.slot;
      var flags := FlagsOf(att, canon, forks);
      var credit := NO_CREDIT;
      if IsElectra(att.includedInBlock, forks) {
        if att.committeeIndexes.None? {
          return;
        }
        credit, ok, positions := ProcessCommittees(att, att.committeeIndexes.value, committees, incDelay, flags);
      } else {
        // each attestation corresponds to one committee
        credit, ok, positions := ProcessCommittees(att, [att.committeeIndex], committees, incDelay, flags);
      }
      if !ok {
        return;
      }
      ghost var agg := Resolve(att, committees, canon, forks).value;
      IncludeAllKeepsMeta(World(old(summary.storage), NO_CREDIT), agg.targetEpoch, agg.members, agg.incDelay, agg.flags, epoch);
      ok := CloseBlock(epoch, att.includedInBlock, credit);
    }

    /** Appends the finished lists to those of the including block, which must be known. */
    method CloseBlock(epoch: int, block: int, credit: Credit) returns (ok: bool)
      modifies summary
      ensures ok <==> block in MetaAt(old(summary.storage), epoch).att.attestations
      ensures ok ==> summary.storage == Close(old(summary.storage), epoch, block, credit)
    {
      var meta := summary.GetMeta(epoch);
      var lists := meta.att.attestations;
      ok := block in lists;
      if ok {
        var patch := MetaPatch(None, Some(lists[block := lists[block] + [credit]]), None);
        summary.SetMeta(epoch, patch);
        TouchedMetaPatch(old(summary.storage), epoch, patch);
      }
    }

    /** The loop over committees with its running offset; it stops at an unknown committee. */
    method ProcessCommittees(att: SlotAttestation, indexes: seq<int>, committees: Committees, incDelay: int, flags: Flags)
      returns (credit: Credit, ok: bool, ghost positions: seq<int>)
      modifies summary
      ensures ok <==> LookupAll(committees, indexes, att.slot).Some?
      ensures ok ==> var cs := Flatten(LookupAll(committees, indexes, att.slot).value);
        && World(summary.storage, credit)
        == IncludeAll(World(old(summary.storage), NO_CREDIT), att.targetEpoch, Attesting(att.aggregationBits, cs, 0), incDelay, flags)
        && positions == Positions(0, |cs|)
    {
      ghost var w := World(summary.storage, NO_CREDIT);
      ghost var cs: seq<seq<int>> := [];
      assert Positions(0, 0) == [];
      EmptyWalk(w, att.targetEpoch, att.aggregationBits, committees, indexes, att.slot, incDelay, flags);
      hide IncludeAll, IncludeOne, Attesting, Flatten, LookupAll, Positions;
      credit, ok, positions := NO_CREDIT, true, [];
      var committeeOffset := 0;
      for i := 0 to |indexes|
        invariant LookupAll(committees, indexes[..i], att.slot) == Some(cs)
        invariant committeeOffset == |Flatten(cs)|
        invariant World(summary.storage, credit)
               == IncludeAll(w, att.targetEpoch, Attesting(att.aggregationBits, Flatten(cs), 0), incDelay, flags)
        invariant positions == Positions(0, |Flatten(cs)|)
      {
        LookupStep(committees, indexes, att.slot, i, cs);
        var key := (indexes[i], att.slot);
        if key !in committees {
          LookupMissing(committees, indexes, att.slot, i);
          ok := false;
          return;
        }
        var committee := committees[key];
        WalkCommittee(w, att.targetEpoch, att.aggregationBits, cs, committee, incDelay, flags);
        ghost var more;
        credit, more := ProcessAttestationCommittee(att.targetEpoch, att.aggregationBits, committee, committeeOffset, incDelay, flags, credit);
        positions := positions + more;
        cs := cs + [committee];
        committeeOffset := committeeOffset + |committee|;
      }
      assert indexes[..|indexes|] == indexes;
      assert positions == Positions(0, |Flatten(cs)|);
    }

    method GetProcessedAttestations(blocks: map<int, seq<BlockAttestation>>, forks: Forks) returns (attestations: seq<SlotAttestation>)
      ensures attestations == Collected(blocks, (processedEpoch - 1) * SLOTS_PER_EPOCH, (processedEpoch + 1) * SLOTS_PER_EPOCH, forks)
    {
      attestations := [];
      var lo := (processedEpoch - 1) * SLOTS_PER_EPOCH;
      for slot := lo to (processedEpoch + 1) * SLOTS_PER_EPOCH
        invariant attestations == Collected(blocks, lo, slot, forks)
      {
        if slot in blocks {
          var atts := blocks[slot];
          ghost var before := attestations;
          for i := 0 to |atts|
            invariant attestations == before + FromBlockAll(slot, atts[..i], forks)
          {
            attestations := attestations + [FromBlock(slot, atts[i], forks)];
          }
          assert atts[..|atts|] == atts;
        }
      }
    }

    method GetAttestationCommittees(prev: seq<CommitteeInfo>, curr: seq<CommitteeInfo>) returns (committees: Committees)
      modifies summary
      ensures committees == CommitteeMap(prev, curr)
      ensures summary.storage
           == ExpectCommittees(ExpectCommittees(old(summary.storage), processedEpoch - 1, prev), processedEpoch, curr)
    {
      committees := ProcessBatch(processedEpoch - 1, prev, map[]);
      committees := ProcessBatch(processedEpoch, curr, committees);
    }

    method ProcessBatch(epoch: int, infos: seq<CommitteeInfo>, committees: Committees) returns (committees': Committees)
      modifies summary
      ensures committees' == AddCommittees(committees, infos)
      ensures summary.storage == ExpectCommittees(old(summary.storage), epoch, infos)
    {
      committees' := committees;
      for i := 0 to |infos|
        invariant committees' == AddCommittees(committees, infos[..i])
        invariant summary.storage == ExpectCommittees(old(summary.storage), epoch, infos[..i])
      {
        assert infos[..i + 1][..i] == infos[..i];
        var committee := infos[i];
        var vs := committee.validators;
        ghost var before := summary.storage;
        for k := 0 to |vs|
          invariant summary.storage == ExpectAll(before, epoch, vs[..k])
        {
          assert vs[..k + 1][..k] == vs[..k];
          summary.Set(epoch, vs[k], NO_DUTY.(att := NO_ATT.(happened := Some(false))));
        }
        assert vs[..|vs|] == vs;
        committees' := committees'[(committee.index, committee.slot) := vs];
      }
      assert infos[..|infos|] == infos;
    }

    /** The check succeeds exactly when every relevant attestation names known committees and a known block. */
    method Check(epoch: int, blocks: map<int, seq<BlockAttestation>>, prev: seq<CommitteeInfo>, curr: seq<CommitteeInfo>,
                 canon: int -> Root, forks: Forks)
      returns (ok: bool)
      modifies this, summary
      ensures var atts := RelevantOf(epoch, Collected(blocks, (epoch - 1) * SLOTS_PER_EPOCH, (epoch + 1) * SLOTS_PER_EPOCH, forks));
        && (ok <==> AllResolve(atts, CommitteeMap(prev, curr), canon, forks)
                    && AllPlaced(atts, MetaAt(old(summary.storage), epoch).att.attestations))
        && (ok ==> summary.storage == Checked(old(summary.storage), epoch,
                                              Aggregates(atts, CommitteeMap(prev, curr), canon, forks), prev, curr))
    {
      hide RunAll, ExpectCommittees, AddCommittees, Resolve, Collected, RelevantOf, AllPlaced;
      processedEpoch := epoch;
      ghost var st0 := summary.storage;
      var attestations := GetProcessedAttestations(blocks, forks);
      var committees := GetAttestationCommittees(prev, curr);
      ExpectKeepsMeta(st0, epoch - 1, prev, epoch);
      ExpectKeepsMeta(ExpectCommittees(st0, epoch - 1, prev), epoch, curr, epoch);
      ok := ProcessAll(epoch, attestations, committees, canon, forks);
    }

    /** The main loop: attestations of slots before the previous epoch were handled in earlier rounds. */
    method ProcessAll(epoch: int, attestations: seq<SlotAttestation>, committees: Committees, canon: int -> Root, forks: Forks)
      returns (ok: bool)
      modifies summary
      ensures ok <==> && AllResolve(RelevantOf(epoch, attestations), committees, canon, forks)
                      && AllPlaced(RelevantOf(epoch, attestations), MetaAt(old(summary.storage), epoch).att.attestations)
      ensures ok ==> summary.storage == RunAll(old(summary.storage), epoch, Aggregates(RelevantOf(epoch, attestations), committees, canon, forks))
    {
      ghost var st := summary.storage;
      ghost var done: seq<SlotAttestation> := [];
      assert RunAll(st, epoch, Aggregates(done, committees, canon, forks)) == st;
      assert AllPlaced(done, MetaAt(st, epoch).att.attestations);
      hide RunAll, RunAggregate, Aggregates, CommitteesOf, FlagsOf, Attesting, Flatten, AllPlaced, AllResolve;
      for i := 0 to |attestations|
        invariant done == RelevantOf(epoch, attestations[..i])
        invariant AllResolve(done, committees, canon, forks)
        invariant AllPlaced(done, MetaAt(st, epoch).att.attestations)
        invariant summary.storage == RunAll(st, epoch, Aggregates(done, committees, canon, forks))
        invariant MetaAt(summary.storage, epoch).att.attestations.Keys == MetaAt(st, epoch).att.attestations.Keys
      {
        assert attestations[..i + 1][..i] == attestations[..i];
        var attestation := attestations[i];
        if attestation.slot <= (epoch - 1) * SLOTS_PER_EPOCH - 1 {
          continue;
        }
        ghost var positions;
        ghost var before := summary.storage;
        ok, positions := ProcessAttestation(epoch, attestation, committees, canon, forks);
        ResolveSucceeds(attestation, committees, canon, forks);
        if !ok {
          OneFails(epoch, attestations, i, committees, canon, forks, MetaAt(st, epoch).att.attestations);
          return;
        }
        RunStep(st, epoch, done, attestation, committees, canon, forks);
        PlacedSnoc(done, attestation, MetaAt(st, epoch).att.attestations);
        RunAggregateKeepsBlocks(before, epoch, Resolve(attestation, committees, canon, forks).value);
        done := done + [attestation];
      }
      assert attestations[..|attestations|] == attestations;
      ok := true;
    }
  }

  // ---- small facts the service relies on -------------------------------------------------------

  lemma TouchedPatch(st: Storage, epoch: int, v: int, patch: Duty)
    ensures PatchDuty(Touch(st, epoch), epoch, v, patch) == PatchDuty(st, epoch, v, patch)
  {
  }

  lemma TouchedMetaPatch(st: Storage, epoch: int, patch: MetaPatch)
    ensures PatchMeta(Touch(st, epoch), epoch, patch) == PatchMeta(st, epoch, patch)
  {
  }

  lemma EmptyWalk(w: World, te: int, bits: seq<bool>, committees: Committees, indexes: seq<int>, slot: int, incDelay: int, flags: Flags)
    ensures IncludeAll(w, te, Attesting(bits, Flatten([]), 0), incDelay, flags) == w
    ensures Flatten([]) == []
    ensures LookupAll(committees, indexes[..0], slot) == Some([])
  {
  }

  lemma ResolveSucceeds(att: SlotAttestation, committees: Committees, canon: int -> Root, forks: Forks)
    ensures Resolve(att, committees, canon, forks).Some? <==> CommitteesOf(att, committees, forks).Some?
    ensures Resolve(att, committees, canon, forks).Some? ==>
              Resolve(att, committees, canon, forks).value.block == att.includedInBlock
  {
  }

  lemma WalkOne(w: World, te: int, bits: seq<bool>, committee: seq<int>, offset: nat, i: nat, incDelay: int, flags: Flags)
    requires i < |committee|
    ensures IncludeAll(w, te, Attesting(bits, committee[..i + 1], offset), incDelay, flags)
         == (var before := IncludeAll(w, te, Attesting(bits, committee[..i], offset), incDelay, flags);
             if Bit(bits, offset + i) then IncludeOne(before, te, committee[i], incDelay, flags) else before)
  {
    assert committee[..i + 1][..i] == committee[..i];
    var done := Attesting(bits, committee[..i], offset);
    if Bit(bits, offset + i) {
      assert Attesting(bits, committee[..i + 1], offset) == done + [committee[i]];
      assert (done + [committee[i]])[..|done|] == done;
    } else {
      assert Attesting(bits, committee[..i + 1], offset) == done;
    }
  }

  lemma LookupStep(committees: Committees, indexes: seq<int>, slot: int, i: nat, cs: seq<seq<int>>)
    requires i < |indexes| && LookupAll(committees, indexes[..i], slot) == Some(cs)
    ensures LookupAll(committees, indexes[..i + 1], slot)
         == if (indexes[i], slot) in committees then Some(cs + [committees[(indexes[i], slot)]]) else None
  {
    assert indexes[..i + 1][..i] == indexes[..i];
  }

  lemma WalkCommittee(w: World, te: int, bits: seq<bool>, cs: seq<seq<int>>, committee: seq<int>, incDelay: int, flags: Flags)
    ensures IncludeAll(w, te, Attesting(bits, Flatten(cs + [committee]), 0), incDelay, flags)
         == IncludeAll(IncludeAll(w, te, Attesting(bits, Flatten(cs), 0), incDelay, flags),
                       te, Attesting(bits, committee, |Flatten(cs)|), incDelay, flags)
    ensures |Flatten(cs + [committee])| == |Flatten(cs)| + |committee|
    ensures Positions(0, |Flatten(cs)|) + Positions(|Flatten(cs)|, |committee|) == Positions(0, |Flatten(cs + [committee])|)
  {
    hide IncludeOne;
    PositionsConcat(0, |Flatten(cs)|, |committee|);
    assert (cs + [committee])[..|cs|] == cs;
    AttestingConcat(bits, Flatten(cs), committee, 0);
    IncludeAllConcat(w, te, Attesting(bits, Flatten(cs), 0), Attesting(bits, committee, |Flatten(cs)|), incDelay, flags);
  }

  lemma RunStep(st: Storage, epoch: int, done: seq<SlotAttestation>, att: SlotAttestation,
                committees: Committees, canon: int -> Root, forks: Forks)
    requires AllResolve(done, committees, canon, forks) && Resolve(att, committees, canon, forks).Some?
    ensures AllResolve(done + [att], committees, canon, forks)
    ensures RunAll(st, epoch, Aggregates(done + [att], committees, canon, forks))
         == RunAggregate(RunAll(st, epoch, Aggregates(done, committees, canon, forks)), epoch, Resolve(att, committees, canon, forks).value)
  {
    hide RunAggregate, CommitteesOf, FlagsOf, Attesting, Flatten;
    var aggs := Aggregates(done, committees, canon, forks);
    var agg := Resolve(att, committees, canon, forks).value;
    assert Aggregates(done + [att], committees, canon, forks) == aggs + [agg];
    assert (aggs + [agg])[..|aggs|] == aggs;
  }

  lemma RunAggregateKeepsBlocks(st: Storage, epoch: int, agg: Aggregate)
    ensures MetaAt(RunAggregate(st, epoch, agg), epoch).att.attestations.Keys == MetaAt(st, epoch).att.attestations.Keys
  {
    IncludeAllKeepsMeta(World(st, NO_CREDIT), agg.targetEpoch, agg.members, agg.incDelay, agg.flags, epoch);
  }

  lemma {:induction false} LookupMissing(committees: Committees, indexes: seq<int>, slot: int, i: nat)
    requires i < |indexes| && (indexes[i], slot) !in committees
    ensures LookupAll(committees, indexes, slot).None?
  {
    if i < |indexes| - 1 {
      LookupMissing(committees, indexes[..|indexes| - 1], slot, i);
    }
  }

  lemma {:induction false} ExpectAllKeepsMeta(st: Storage, epoch: int, vs: seq<int>, e: int)
    ensures MetaAt(ExpectAll(st, epoch, vs), e) == MetaAt(st, e)
  {
    if vs != [] {
      ExpectAllKeepsMeta(st, epoch, vs[..|vs| - 1], e);
    }
  }

  lemma {:induction false} ExpectKeepsMeta(st: Storage, epoch: int, infos: seq<CommitteeInfo>, e: int)
    ensures MetaAt(ExpectCommittees(st, epoch, infos), e) == MetaAt(st, e)
  {
    if infos != [] {
      var init := infos[..|infos| - 1];
      ExpectKeepsMeta(st, epoch, init, e);
      ExpectAllKeepsMeta(ExpectCommittees(st, epoch, init), epoch, infos[|infos| - 1].validators, e);
    }
  }

  /** The attestation `a` stands at position `k` of the block in slot `b`. */
  predicate StandsAt(blocks: map<int, seq<BlockAttestation>>, forks: Forks, a: SlotAttestation, b: int, k: int) {
    b in blocks && 0 <= k < |blocks[b]| && a == FromBlock(b, blocks[b][k], forks)
  }

  /** What is collected is every attestation of every block in the range, and nothing else. */
  lemma {:induction false} CollectedIsAll(blocks: map<int, seq<BlockAttestation>>, lo: int, hi: int, forks: Forks, a: SlotAttestation)
    requires lo <= hi
    ensures a in Collected(blocks, lo, hi, forks) <==> exists b, k :: lo <= b < hi && StandsAt(blocks, forks, a, b, k)
    decreases hi - lo
  {
    if lo < hi {
      CollectedIsAll(blocks, lo, hi - 1, forks, a);
      BlockIsAll(blocks, hi - 1, forks, a);
      hide StandsAt, FromBlockAll;
    }
  }

  /** They are collected in order and once each: the n-th attestation of a block follows all those of earlier blocks and the
      n before it in its own. */
  lemma {:induction false} CollectedAt(blocks: map<int, seq<BlockAttestation>>, lo: int, hi: int, forks: Forks, b: int, n: nat)
    requires lo <= b < hi && b in blocks && n < |blocks[b]|
    ensures var place := |Collected(blocks, lo, b, forks)| + n;
      place < |Collected(blocks, lo, hi, forks)| && Collected(blocks, lo, hi, forks)[place] == FromBlock(b, blocks[b][n], forks)
    ensures |Collected(blocks, lo, b + 1, forks)| == |Collected(blocks, lo, b, forks)| + |blocks[b]|
    decreases hi - lo
  {
    if b < hi - 1 {
      CollectedAt(blocks, lo, hi - 1, forks, b, n);
    }
  }

  lemma BlockIsAll(blocks: map<int, seq<BlockAttestation>>, b: int, forks: Forks, a: SlotAttestation)
    ensures (b in blocks && a in FromBlockAll(b, blocks[b], forks)) <==> exists k :: StandsAt(blocks, forks, a, b, k)
  {
    hide FromBlock;
    if b in blocks {
      var all := FromBlockAll(b, blocks[b], forks);
      assert |all| == |blocks[b]| && forall k :: 0 <= k < |all| ==> all[k] == FromBlock(b, blocks[b][k], forks);
      if a in all {
        var k :| 0 <= k < |all| && all[k] == a;
        assert StandsAt(blocks, forks, a, b, k);
      }
      if k :| StandsAt(blocks, forks, a, b, k) {
        assert all[k] == a;
      }
    }
  }

  lemma {:induction false} RelevantAreKept(epoch: int, atts: seq<SlotAttestation>, a: SlotAttestation)
    ensures a in RelevantOf(epoch, atts) <==> a in atts && a.slot >= (epoch - 1) * SLOTS_PER_EPOCH
  {
    if atts != [] {
      RelevantAreKept(epoch, atts[..|atts| - 1], a);
      assert atts == atts[..|atts| - 1] + [atts[|atts| - 1]];
    }
  }

  /** A committee is found under its own index and slot; of two with the same key the later one counts. */
  lemma {:induction false} CommitteesAreFound(committees: Committees, infos: seq<CommitteeInfo>, key: (int, int))
    ensures key in AddCommittees(committees, infos)
       <==> key in committees || exists k :: 0 <= k < |infos| && (infos[k].index, infos[k].slot) == key
    ensures forall k :: 0 <= k < |infos| && (infos[k].index, infos[k].slot) == key
                        && (forall j :: k < j < |infos| ==> (infos[j].index, infos[j].slot) != key)
                        ==> AddCommittees(committees, infos)[key] == infos[k].validators
  {
    if infos != [] {
      var init := infos[..|infos| - 1];
      CommitteesAreFound(committees, init, key);
      assert forall k :: 0 <= k < |init| ==> init[k] == infos[k];
    }
  }

  /** Every collected attestation was included in a block of the window. */
  lemma {:induction false} CollectedInWindow(blocks: map<int, seq<BlockAttestation>>, epoch: int, hi: int, forks: Forks)
    requires (epoch - 1) * SLOTS_PER_EPOCH <= hi <= (epoch + 1) * SLOTS_PER_EPOCH
    ensures forall a :: a in Collected(blocks, (epoch - 1) * SLOTS_PER_EPOCH, hi, forks) ==>
              && InWindow(epoch, a.includedInBlock) && a.includedInBlock < hi
              && (a.committeeIndexes.Some? <==> IsElectra(a.includedInBlock, forks))
    decreases hi - (epoch - 1) * SLOTS_PER_EPOCH
  {
    if hi > (epoch - 1) * SLOTS_PER_EPOCH {
      CollectedInWindow(blocks, epoch, hi - 1, forks);
    }
  }

  /** In an epoch initialised as usual every attestation that is collected can be filed. */
  lemma CollectedArePlaced(blocks: map<int, seq<BlockAttestation>>, epoch: int, forks: Forks, lists: map<int, seq<Credit>>)
    requires lists.Keys >= Window(epoch)
    ensures AllPlaced(RelevantOf(epoch, Collected(blocks, (epoch - 1) * SLOTS_PER_EPOCH, (epoch + 1) * SLOTS_PER_EPOCH, forks)), lists)
  {
    var collected := Collected(blocks, (epoch - 1) * SLOTS_PER_EPOCH, (epoch + 1) * SLOTS_PER_EPOCH, forks);
    CollectedInWindow(blocks, epoch, (epoch + 1) * SLOTS_PER_EPOCH, forks);
    var atts := RelevantOf(epoch, collected);
    hide RelevantOf, Collected;
    forall i | 0 <= i < |atts|
      ensures atts[i].includedInBlock in lists
    {
      RelevantAreKept(epoch, collected, atts[i]);
      assert atts[i] in atts;
      assert atts[i].includedInBlock in Window(epoch);
    }
  }

  lemma PlacedSnoc(done: seq<SlotAttestation>, att: SlotAttestation, lists: map<int, seq<Credit>>)
    requires AllPlaced(done, lists) && att.includedInBlock in lists
    ensures AllPlaced(done + [att], lists)
  {
  }

  lemma OneFails(epoch: int, atts: seq<SlotAttestation>, i: nat, committees: Committees, canon: int -> Root, forks: Forks,
                 lists: map<int, seq<Credit>>)
    requires i < |atts| && Relevant(epoch, atts[i])
    requires Resolve(atts[i], committees, canon, forks).None? || atts[i].includedInBlock !in lists
    ensures !AllResolve(RelevantOf(epoch, atts), committees, canon, forks) || !AllPlaced(RelevantOf(epoch, atts), lists)
  {
    RelevantSplit(epoch, atts, i);
    hide RelevantOf, Resolve;
  }

  lemma {:induction false} RelevantSplit(epoch: int, atts: seq<SlotAttestation>, i: nat)
    requires i < |atts| && Relevant(epoch, atts[i])
    ensures var done := RelevantOf(epoch, atts[..i]);
            var all := RelevantOf(epoch, atts);
            |done| < |all| && all[|done|] == atts[i]
  {
    var last := |atts| - 1;
    if i == last {
      assert atts[..i] == atts[..last];
    } else {
      RelevantSplit(epoch, atts[..last], i);
      assert atts[..last][..i] == atts[..i];
    }
  }
}
