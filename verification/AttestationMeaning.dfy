/** What the attestation fields of a record mean in terms of the blocks alone: which attestations stand in them, whose
    bits are set, and which roots are compared with which canonical ones. */
module AttestationMeaning {
  import opened Constants
  import opened Options
  import opened Summary
  import opened AttestationConstants
  import opened Attestation
  import opened AttestationAccounting

  type Blocks = map<int, seq<BlockAttestation>>

  // ---- whose bit is set ------------------------------------------------------------------------

  /** The indexes of the committees an attestation in block `b` speaks for. */
  function NamedIndexes(a: BlockAttestation, b: int, forks: Forks): seq<int> {
    if b / SLOTS_PER_EPOCH >= forks.electra then TrueBits(a.committeeBits) else [a.index]
  }

  /** How many bits precede those of the k-th named committee. */
  function Offset(committees: Committees, indexes: seq<int>, slot: int, k: nat): nat
    requires k <= |indexes|
  {
    if k == 0 then 0
    else
      var key := (indexes[k - 1], slot);
      Offset(committees, indexes, slot, k - 1) + if key in committees then |committees[key]| else 0
  }

  /** The validator is the j-th member of the k-th named committee, and its bit is set. */
  predicate FacesBit(a: BlockAttestation, b: int, committees: Committees, forks: Forks, v: int, k: int, j: int) {
    var indexes := NamedIndexes(a, b, forks);
    && 0 <= k < |indexes| && (indexes[k], a.slot) in committees
    && 0 <= j < |committees[(indexes[k], a.slot)]| && committees[(indexes[k], a.slot)][j] == v
    && Bit(a.aggregationBits, Offset(committees, indexes, a.slot, k) + j)
  }

  ghost predicate Attests(a: BlockAttestation, b: int, committees: Committees, forks: Forks, v: int) {
    exists k, j :: FacesBit(a, b, committees, forks, v, k, j)
  }

  // ---- which attestations count ----------------------------------------------------------------

  /** The n-th attestation of the block in slot `b` is one the round over `epoch` looks at. */
  predicate Counts(blocks: Blocks, epoch: int, b: int, n: int) {
    && (epoch - 1) * SLOTS_PER_EPOCH <= b < (epoch + 1) * SLOTS_PER_EPOCH
    && b in blocks && 0 <= n < |blocks[b]|
    && blocks[b][n].slot >= (epoch - 1) * SLOTS_PER_EPOCH
  }

  ghost predicate IncludedBy(blocks: Blocks, committees: Committees, forks: Forks, epoch: int, te: int, v: int, b: int, n: int) {
    && Counts(blocks, epoch, b, n)
    && blocks[b][n].targetEpoch == te && Attests(blocks[b][n], b, committees, forks, v)
  }

  /** The flags of the Altair specification for an attestation in block `b`. */
  function SpecFlags(a: BlockAttestation, b: int, canon: int -> Root, forks: Forks): set<Flag> {
    SpecFlagIndices(b - a.slot, a.sourceRoot == canon(a.sourceEpoch * SLOTS_PER_EPOCH), a.targetRoot == canon(a.targetEpoch * SLOTS_PER_EPOCH),
                    a.head == canon(a.slot), b / SLOTS_PER_EPOCH >= forks.deneb, 5)
  }

  ghost predicate EarnedBy(blocks: Blocks, committees: Committees, canon: int -> Root, forks: Forks, epoch: int, te: int, v: int, f: Flag,
                           b: int, n: int)
  {
    IncludedBy(blocks, committees, forks, epoch, te, v, b, n) && f in SpecFlags(blocks[b][n], b, canon, forks)
  }

  ghost predicate Seen(blocks: Blocks, committees: Committees, forks: Forks, epoch: int, te: int, v: int) {
    exists b, n :: IncludedBy(blocks, committees, forks, epoch, te, v, b, n)
  }

  ghost predicate Earns(blocks: Blocks, committees: Committees, canon: int -> Root, forks: Forks, epoch: int, te: int, v: int, f: Flag) {
    exists b, n :: EarnedBy(blocks, committees, canon, forks, epoch, te, v, f, b, n)
  }

  ghost predicate LeastDelay(blocks: Blocks, committees: Committees, forks: Forks, epoch: int, te: int, v: int, d: int) {
    && (exists b, n :: IncludedBy(blocks, committees, forks, epoch, te, v, b, n) && b - blocks[b][n].slot == d)
    && forall b, n :: IncludedBy(blocks, committees, forks, epoch, te, v, b, n) ==> d <= b - blocks[b][n].slot
  }

  /** A record says what the blocks say. */
  ghost predicate RecordSays(att: AttDuty, blocks: Blocks, committees: Committees, canon: int -> Root, forks: Forks, epoch: int, te: int, v: int,
                             expected: bool)
  {
    var seen := Seen(blocks, committees, forks, epoch, te, v);
    && (att.happened == Some(true) <==> seen)
    && (att.happened == Some(false) <==> !seen && expected)
    && (att.source == Some(true) <==> Earns(blocks, committees, canon, forks, epoch, te, v, SourceFlag))
    && (att.target == Some(true) <==> Earns(blocks, committees, canon, forks, epoch, te, v, TargetFlag))
    && (att.head == Some(true) <==> Earns(blocks, committees, canon, forks, epoch, te, v, HeadFlag))
    && (att.incDelay.Some? <==> seen)
    && (seen ==> LeastDelay(blocks, committees, forks, epoch, te, v, att.incDelay.value))
  }

  // ---- one attestation -------------------------------------------------------------------------

  /** The member at position `j` of the k-th of these committees has its bit set. */
  predicate FacesIn(bits: seq<bool>, cs: seq<seq<int>>, v: int, k: int, j: int) {
    0 <= k < |cs| && 0 <= j < |cs[k]| && cs[k][j] == v && Bit(bits, |Flatten(cs[..k])| + j)
  }

  lemma FlattenSnoc(init: seq<seq<int>>, last: seq<int>)
    ensures Flatten(init + [last]) == Flatten(init) + last
  {
    assert (init + [last])[..|init|] == init;
  }

  /** Attesting over the concatenation is facing a bit in one of the committees. */
  lemma {:induction false} AttestingIsFacing(bits: seq<bool>, cs: seq<seq<int>>, v: int)
    ensures v in Attesting(bits, Flatten(cs), 0) <==> exists k, j :: FacesIn(bits, cs, v, k, j)
  {
    if cs == [] {
    } else {
      hide Attesting, FacesIn, Flatten, FacesLast;
      var init, last := cs[..|cs| - 1], cs[|cs| - 1];
      assert cs == init + [last];
      AttestingIsFacing(bits, init, v);
      AttestingSnoc(bits, init, last, v);
      FacesSnoc(bits, init, last, v);
    }
  }

  /** The validator is in the committee that follows these ones, and its bit is set. */
  predicate FacesLast(bits: seq<bool>, init: seq<seq<int>>, last: seq<int>, v: int) {
    exists i :: 0 <= i < |last| && last[i] == v && Bit(bits, |Flatten(init)| + i)
  }

  lemma AttestingSnoc(bits: seq<bool>, init: seq<seq<int>>, last: seq<int>, v: int)
    ensures v in Attesting(bits, Flatten(init + [last]), 0) <==> v in Attesting(bits, Flatten(init), 0) || FacesLast(bits, init, last, v)
  {
    hide Attesting, Flatten, Bit;
    FlattenSnoc(init, last);
    AttestingConcat(bits, Flatten(init), last, 0);
    AttestingIsZip(bits, last, |Flatten(init)|, v);
  }

  lemma FacesAt(bits: seq<bool>, init: seq<seq<int>>, last: seq<int>, v: int, k: int, j: int)
    ensures FacesIn(bits, init + [last], v, k, j)
       <==> (FacesIn(bits, init, v, k, j) || (k == |init| && 0 <= j < |last| && last[j] == v && Bit(bits, |Flatten(init)| + j)))
  {
    hide Flatten, Bit;
    var cs := init + [last];
    assert cs[..|init|] == init && cs[|init|] == last;
    if 0 <= k < |init| {
      assert cs[..k] == init[..k] && cs[k] == init[k];
    }
  }

  lemma FacesSnoc(bits: seq<bool>, init: seq<seq<int>>, last: seq<int>, v: int)
    ensures (exists k, j :: FacesIn(bits, init + [last], v, k, j))
       <==> (exists k, j :: FacesIn(bits, init, v, k, j)) || FacesLast(bits, init, last, v)
  {
    hide Flatten, FacesIn, Bit;
    if k, j :| FacesIn(bits, init, v, k, j) {
      FacesAt(bits, init, last, v, k, j);
    }
    if i :| 0 <= i < |last| && last[i] == v && Bit(bits, |Flatten(init)| + i) {
      FacesAt(bits, init, last, v, |init|, i);
    }
    if k, j :| FacesIn(bits, init + [last], v, k, j) {
      FacesAt(bits, init, last, v, k, j);
    }
  }

  /** The committees found are the named ones, in order, and their offsets are the sums of the sizes before. */
  lemma {:induction false} LookedUp(committees: Committees, indexes: seq<int>, slot: int, k: nat)
    requires LookupAll(committees, indexes, slot).Some? && k <= |indexes|
    ensures var cs := LookupAll(committees, indexes, slot).value;
      && |cs| == |indexes|
      && (k < |indexes| ==> (indexes[k], slot) in committees && cs[k] == committees[(indexes[k], slot)])
      && |Flatten(cs[..k])| == Offset(committees, indexes, slot, k)
  {
    if indexes == [] {
    } else {
      var last := |indexes| - 1;
      var init := indexes[..last];
      LookedUp(committees, init, slot, if k <= last then k else last);
      var before := LookupAll(committees, init, slot).value;
      var cs := before + [committees[(indexes[last], slot)]];
      assert LookupAll(committees, indexes, slot) == Some(cs);
      hide LookupAll, Flatten;
      SameOffset(committees, init, indexes, slot, if k <= last then k else last);
      if k <= last {
        assert cs[..k] == before[..k];
        assert k < last ==> cs[k] == before[k] && indexes[k] == init[k];
      } else {
        assert before[..last] == before && cs[..k] == cs;
        FlattenSnoc(before, committees[(indexes[last], slot)]);
      }
    }
  }

  lemma {:induction false} SameOffset(committees: Committees, a: seq<int>, b: seq<int>, slot: int, k: nat)
    requires k <= |a| <= |b| && forall i :: 0 <= i < k ==> a[i] == b[i]
    ensures Offset(committees, a, slot, k) == Offset(committees, b, slot, k)
  {
    if k > 0 {
      SameOffset(committees, a, b, slot, k - 1);
    }
  }

  lemma NamedAreLookedUp(a: BlockAttestation, b: int, committees: Committees, forks: Forks)
    ensures CommitteesOf(FromBlock(b, a, forks), committees, forks) == LookupAll(committees, NamedIndexes(a, b, forks), a.slot)
  {
    hide LookupAll, TrueBits;
  }

  /** Facing a bit in the committees that are found is facing a bit in the committees that are named. */
  lemma SameFacing(a: BlockAttestation, b: int, committees: Committees, forks: Forks, v: int, k: int, j: int)
    requires LookupAll(committees, NamedIndexes(a, b, forks), a.slot).Some?
    ensures FacesIn(a.aggregationBits, LookupAll(committees, NamedIndexes(a, b, forks), a.slot).value, v, k, j)
       <==> FacesBit(a, b, committees, forks, v, k, j)
  {
    hide LookupAll, Flatten, NamedIndexes, Offset, Bit;
    var indexes := NamedIndexes(a, b, forks);
    LookedUp(committees, indexes, a.slot, if 0 <= k <= |indexes| then k else 0);
  }

  lemma MembersAttest(a: BlockAttestation, b: int, committees: Committees, canon: int -> Root, forks: Forks, v: int)
    requires Resolve(FromBlock(b, a, forks), committees, canon, forks).Some?
    ensures v in Resolve(FromBlock(b, a, forks), committees, canon, forks).value.members <==> Attests(a, b, committees, forks, v)
  {
    hide LookupAll, Attesting, Flatten, NamedIndexes, FacesIn, FacesBit, FlagsOf, CommitteesOf;
    NamedAreLookedUp(a, b, committees, forks);
    var cs := LookupAll(committees, NamedIndexes(a, b, forks), a.slot).value;
    AttestingIsFacing(a.aggregationBits, cs, v);
    forall k, j
      ensures FacesIn(a.aggregationBits, cs, v, k, j) <==> FacesBit(a, b, committees, forks, v, k, j)
    {
      SameFacing(a, b, committees, forks, v, k, j);
    }
  }

  lemma ResolvedFlags(a: BlockAttestation, b: int, committees: Committees, canon: int -> Root, forks: Forks, f: Flag)
    requires Resolve(FromBlock(b, a, forks), committees, canon, forks).Some?
    ensures var agg := Resolve(FromBlock(b, a, forks), committees, canon, forks).value;
      && (f.In(agg.flags) <==> f in SpecFlags(a, b, canon, forks))
      && agg.targetEpoch == a.targetEpoch && agg.incDelay == b - a.slot && agg.block == b
  {
    hide CommitteesOf, Attesting, TrueBits, SpecFlagIndices;
    FlagsMatchSpec(b - a.slot, a.sourceRoot == canon(a.sourceEpoch * SLOTS_PER_EPOCH), a.targetRoot == canon(a.targetEpoch * SLOTS_PER_EPOCH),
                   a.head == canon(a.slot), b / SLOTS_PER_EPOCH >= forks.deneb, 5, f);
    hide GetAttestationFlags;
  }

  // ---- all of them -----------------------------------------------------------------------------

  function AttsIn(blocks: Blocks, epoch: int, forks: Forks): seq<SlotAttestation> {
    RelevantOf(epoch, Collected(blocks, (epoch - 1) * SLOTS_PER_EPOCH, (epoch + 1) * SLOTS_PER_EPOCH, forks))
  }

  lemma PlaceOf(blocks: Blocks, epoch: int, forks: Forks, i: nat) returns (b: int, n: int)
    requires i < |AttsIn(blocks, epoch, forks)|
    ensures Counts(blocks, epoch, b, n) && AttsIn(blocks, epoch, forks)[i] == FromBlock(b, blocks[b][n], forks)
  {
    var lo, hi := (epoch - 1) * SLOTS_PER_EPOCH, (epoch + 1) * SLOTS_PER_EPOCH;
    var atts := AttsIn(blocks, epoch, forks);
    assert atts[i] in atts;
    RelevantAreKept(epoch, Collected(blocks, lo, hi, forks), atts[i]);
    CollectedIsAll(blocks, lo, hi, forks, atts[i]);
    hide Collected, RelevantOf, TrueBits;
    b, n :| lo <= b < hi && StandsAt(blocks, forks, atts[i], b, n);
  }

  lemma IndexOf(blocks: Blocks, epoch: int, forks: Forks, b: int, n: int) returns (i: nat)
    requires Counts(blocks, epoch, b, n)
    ensures i < |AttsIn(blocks, epoch, forks)| && AttsIn(blocks, epoch, forks)[i] == FromBlock(b, blocks[b][n], forks)
  {
    var lo, hi := (epoch - 1) * SLOTS_PER_EPOCH, (epoch + 1) * SLOTS_PER_EPOCH;
    var a := FromBlock(b, blocks[b][n], forks);
    assert StandsAt(blocks, forks, a, b, n);
    CollectedIsAll(blocks, lo, hi, forks, a);
    RelevantAreKept(epoch, Collected(blocks, lo, hi, forks), a);
    hide Collected, RelevantOf, TrueBits;
    i :| 0 <= i < |AttsIn(blocks, epoch, forks)| && AttsIn(blocks, epoch, forks)[i] == a;
  }

  /** The aggregate at index `i`, which comes from place `n` of block `b`, includes and earns what the block says. */
  lemma SameInclusion(blocks: Blocks, committees: Committees, canon: int -> Root, forks: Forks, epoch: int, te: int, v: int, i: nat, b: int, n: int)
    requires AllResolve(AttsIn(blocks, epoch, forks), committees, canon, forks) && i < |AttsIn(blocks, epoch, forks)|
    requires Counts(blocks, epoch, b, n) && AttsIn(blocks, epoch, forks)[i] == FromBlock(b, blocks[b][n], forks)
    ensures var agg := Aggregates(AttsIn(blocks, epoch, forks), committees, canon, forks)[i];
      && (Included(agg, te, v) <==> IncludedBy(blocks, committees, forks, epoch, te, v, b, n))
      && (forall f: Flag :: Earned(agg, te, v, f) <==> EarnedBy(blocks, committees, canon, forks, epoch, te, v, f, b, n))
      && agg.incDelay == b - blocks[b][n].slot
  {
    hide AttsIn, Resolve, FromBlock, SpecFlags, Attests;
    MembersAttest(blocks[b][n], b, committees, canon, forks, v);
    forall f: Flag
      ensures var agg := Resolve(FromBlock(b, blocks[b][n], forks), committees, canon, forks).value;
        && (f.In(agg.flags) <==> f in SpecFlags(blocks[b][n], b, canon, forks))
        && agg.targetEpoch == blocks[b][n].targetEpoch && agg.incDelay == b - blocks[b][n].slot
    {
      ResolvedFlags(blocks[b][n], b, committees, canon, forks, f);
    }
    ResolvedFlags(blocks[b][n], b, committees, canon, forks, SourceFlag);
  }

  lemma SeenInBlocks(blocks: Blocks, committees: Committees, canon: int -> Root, forks: Forks, epoch: int, te: int, v: int)
    requires AllResolve(AttsIn(blocks, epoch, forks), committees, canon, forks)
    ensures var aggs := Aggregates(AttsIn(blocks, epoch, forks), committees, canon, forks);
      SomeIncluded(aggs, te, v) <==> Seen(blocks, committees, forks, epoch, te, v)
  {
    hide AttsIn, Aggregates, Resolve, FromBlock, Included, IncludedBy, AllResolve;
    var aggs := Aggregates(AttsIn(blocks, epoch, forks), committees, canon, forks);
    SameLength(blocks, committees, canon, forks, epoch);
    if i :| 0 <= i < |aggs| && Included(aggs[i], te, v) {
      var b, n := PlaceOf(blocks, epoch, forks, i);
      SameInclusion(blocks, committees, canon, forks, epoch, te, v, i, b, n);
    }
    if b, n :| IncludedBy(blocks, committees, forks, epoch, te, v, b, n) {
      CountsIfIncluded(blocks, committees, forks, epoch, te, v, b, n);
      var i := IndexOf(blocks, epoch, forks, b, n);
      SameInclusion(blocks, committees, canon, forks, epoch, te, v, i, b, n);
    }
  }

  lemma SameLength(blocks: Blocks, committees: Committees, canon: int -> Root, forks: Forks, epoch: int)
    requires AllResolve(AttsIn(blocks, epoch, forks), committees, canon, forks)
    ensures |Aggregates(AttsIn(blocks, epoch, forks), committees, canon, forks)| == |AttsIn(blocks, epoch, forks)|
  {
    hide AttsIn, Resolve;
  }

  lemma CountsIfIncluded(blocks: Blocks, committees: Committees, forks: Forks, epoch: int, te: int, v: int, b: int, n: int)
    requires IncludedBy(blocks, committees, forks, epoch, te, v, b, n)
    ensures Counts(blocks, epoch, b, n)
  {
  }

  lemma EarnedInBlocks(blocks: Blocks, committees: Committees, canon: int -> Root, forks: Forks, epoch: int, te: int, v: int, f: Flag)
    requires AllResolve(AttsIn(blocks, epoch, forks), committees, canon, forks)
    ensures var aggs := Aggregates(AttsIn(blocks, epoch, forks), committees, canon, forks);
      SomeEarned(aggs, te, v, f) <==> Earns(blocks, committees, canon, forks, epoch, te, v, f)
  {
    hide AttsIn, Aggregates, Resolve, FromBlock, Earned, IncludedBy, AllResolve, SpecFlags;
    var aggs := Aggregates(AttsIn(blocks, epoch, forks), committees, canon, forks);
    SameLength(blocks, committees, canon, forks, epoch);
    if i :| 0 <= i < |aggs| && Earned(aggs[i], te, v, f) {
      var b, n := PlaceOf(blocks, epoch, forks, i);
      SameInclusion(blocks, committees, canon, forks, epoch, te, v, i, b, n);
    }
    if b, n :| EarnedBy(blocks, committees, canon, forks, epoch, te, v, f, b, n) {
      CountsIfIncluded(blocks, committees, forks, epoch, te, v, b, n);
      var i := IndexOf(blocks, epoch, forks, b, n);
      SameInclusion(blocks, committees, canon, forks, epoch, te, v, i, b, n);
    }
  }

  lemma DelayInBlocks(blocks: Blocks, committees: Committees, canon: int -> Root, forks: Forks, epoch: int, te: int, v: int, d: int)
    requires AllResolve(AttsIn(blocks, epoch, forks), committees, canon, forks)
    requires IsLeastDelay(Aggregates(AttsIn(blocks, epoch, forks), committees, canon, forks), te, v, d)
    ensures LeastDelay(blocks, committees, forks, epoch, te, v, d)
  {
    hide AttsIn, Aggregates, Resolve, FromBlock, Included, Attests, AllResolve;
    var aggs := Aggregates(AttsIn(blocks, epoch, forks), committees, canon, forks);
    SameLength(blocks, committees, canon, forks, epoch);
    var i :| 0 <= i < |aggs| && Included(aggs[i], te, v) && aggs[i].incDelay == d;
    var b, n := PlaceOf(blocks, epoch, forks, i);
    SameInclusion(blocks, committees, canon, forks, epoch, te, v, i, b, n);
    forall b', n' | IncludedBy(blocks, committees, forks, epoch, te, v, b', n')
      ensures d <= b' - blocks[b'][n'].slot
    {
      CountsIfIncluded(blocks, committees, forks, epoch, te, v, b', n');
      var k := IndexOf(blocks, epoch, forks, b', n');
      SameInclusion(blocks, committees, canon, forks, epoch, te, v, k, b', n');
    }
  }

  /** What a record says of the aggregates it says of the blocks they come from. */
  lemma SaysOfBlocks(att: AttDuty, blocks: Blocks, committees: Committees, canon: int -> Root, forks: Forks, epoch: int, te: int,
                     v: int, expected: bool)
    requires AllResolve(AttsIn(blocks, epoch, forks), committees, canon, forks)
    requires RecordMeans(att, Aggregates(AttsIn(blocks, epoch, forks), committees, canon, forks), te, v, expected)
    ensures RecordSays(att, blocks, committees, canon, forks, epoch, te, v, expected)
  {
    hide AttsIn, Aggregates, AllResolve, SomeIncluded, SomeEarned, Seen, Earns, IsLeastDelay, LeastDelay;
    SeenInBlocks(blocks, committees, canon, forks, epoch, te, v);
    EarnedInBlocks(blocks, committees, canon, forks, epoch, te, v, SourceFlag);
    EarnedInBlocks(blocks, committees, canon, forks, epoch, te, v, TargetFlag);
    EarnedInBlocks(blocks, committees, canon, forks, epoch, te, v, HeadFlag);
    if Seen(blocks, committees, forks, epoch, te, v) {
      DelayInBlocks(blocks, committees, canon, forks, epoch, te, v, att.incDelay.value);
    }
  }

  // ---- when a check succeeds -------------------------------------------------------------------

  /** Every committee an attestation speaks for is known. */
  predicate Named(a: BlockAttestation, b: int, committees: Committees, forks: Forks) {
    var indexes := NamedIndexes(a, b, forks);
    forall k :: 0 <= k < |indexes| ==> (indexes[k], a.slot) in committees
  }

  lemma {:induction false} LookupIfNamed(committees: Committees, indexes: seq<int>, slot: int)
    requires forall k :: 0 <= k < |indexes| ==> (indexes[k], slot) in committees
    ensures LookupAll(committees, indexes, slot).Some?
  {
    if indexes != [] {
      LookupIfNamed(committees, indexes[..|indexes| - 1], slot);
    }
  }

  lemma ResolvesIfNamed(a: BlockAttestation, b: int, committees: Committees, canon: int -> Root, forks: Forks)
    ensures Resolve(FromBlock(b, a, forks), committees, canon, forks).Some? <==> Named(a, b, committees, forks)
  {
    hide LookupAll, FlagsOf, Attesting, TrueBits, CommitteesOf, NamedIndexes;
    var indexes := NamedIndexes(a, b, forks);
    NamedAreLookedUp(a, b, committees, forks);
    if Named(a, b, committees, forks) {
      LookupIfNamed(committees, indexes, a.slot);
    } else {
      var k :| 0 <= k < |indexes| && (indexes[k], a.slot) !in committees;
      LookupMissing(committees, indexes, a.slot, k);
    }
  }

  /** A check gets through all attestations exactly when the committees of each that counts are known. */
  lemma ResolveExactlyIf(blocks: Blocks, committees: Committees, canon: int -> Root, forks: Forks, epoch: int)
    ensures AllResolve(AttsIn(blocks, epoch, forks), committees, canon, forks)
       <==> forall b, n :: Counts(blocks, epoch, b, n) ==> Named(blocks[b][n], b, committees, forks)
  {
    hide AttsIn, Resolve, FromBlock, Named;
    var atts := AttsIn(blocks, epoch, forks);
    if AllResolve(atts, committees, canon, forks) {
      forall b, n | Counts(blocks, epoch, b, n)
        ensures Named(blocks[b][n], b, committees, forks)
      {
        var i := IndexOf(blocks, epoch, forks, b, n);
        ResolvesIfNamed(blocks[b][n], b, committees, canon, forks);
      }
    } else {
      var i :| 0 <= i < |atts| && Resolve(atts[i], committees, canon, forks).None?;
      var b, n := PlaceOf(blocks, epoch, forks, i);
      ResolvesIfNamed(blocks[b][n], b, committees, canon, forks);
    }
  }

  lemma {:induction false} AddBoth(committees: Committees, a: seq<CommitteeInfo>, b: seq<CommitteeInfo>)
    ensures AddCommittees(AddCommittees(committees, a), b) == AddCommittees(committees, a + b)
  {
    if b == [] {
      assert a + b == a;
    } else {
      AddBoth(committees, a, b[..|b| - 1]);
      assert (a + b)[..|a + b| - 1] == a + b[..|b| - 1];
    }
  }

  /** The map holds the committees of both epochs under index and slot; of two with the same key the later one counts. */
  lemma CommitteesOfRound(prev: seq<CommitteeInfo>, curr: seq<CommitteeInfo>, key: (int, int))
    ensures var infos := prev + curr;
      && (key in CommitteeMap(prev, curr) <==> exists k :: 0 <= k < |infos| && (infos[k].index, infos[k].slot) == key)
      && (forall k :: 0 <= k < |infos| && (infos[k].index, infos[k].slot) == key
                      && (forall j :: k < j < |infos| ==> (infos[j].index, infos[j].slot) != key)
                      ==> CommitteeMap(prev, curr)[key] == infos[k].validators)
  {
    AddBoth(map[], prev, curr);
    CommitteesAreFound(map[], prev + curr, key);
  }

  // ---- the meaning of a check ------------------------------------------------------------------

  /** What the chain guarantees of the attestations in its blocks. */
  ghost predicate BlocksValid(blocks: Blocks, epoch: int) {
    forall b, n :: Counts(blocks, epoch, b, n) ==>
      blocks[b][n].targetEpoch == blocks[b][n].slot / SLOTS_PER_EPOCH && b > blocks[b][n].slot
  }

  /** Then the aggregates of a round come with ascending delays. */
  lemma ValidBlocksAscend(blocks: Blocks, committees: Committees, canon: int -> Root, forks: Forks, epoch: int)
    requires OneCommittee(committees) && BlocksValid(blocks, epoch)
    requires AllResolve(AttsIn(blocks, epoch, forks), committees, canon, forks)
    ensures DelaysAscend(Aggregates(AttsIn(blocks, epoch, forks), committees, canon, forks))
  {
    var atts := AttsIn(blocks, epoch, forks);
    forall a | a in atts
      ensures BlockValid(a)
    {
      hide AttsIn, TrueBits;
      var i :| 0 <= i < |atts| && atts[i] == a;
      var b, n := PlaceOf(blocks, epoch, forks, i);
    }
    hide OneCommittee, DelaysAscend, BlocksValid, AllResolve, Aggregates;
    BlockOrderIsDelayOrder(epoch, blocks, committees, canon, forks);
  }

  /** After a check from a cleared store a flag is set exactly when some attestation in a block of the two epochs earned it,
      whatever the chain guarantees. */
  lemma CheckFlags(epoch: int, blocks: Blocks, prev: seq<CommitteeInfo>, curr: seq<CommitteeInfo>, canon: int -> Root, forks: Forks,
                   te: int, v: int, f: Flag)
    requires AllResolve(AttsIn(blocks, epoch, forks), CommitteeMap(prev, curr), canon, forks)
    ensures var aggs := Aggregates(AttsIn(blocks, epoch, forks), CommitteeMap(prev, curr), canon, forks);
      Has(Checked(map[], epoch, aggs, prev, curr), te, v, f) <==> Earns(blocks, CommitteeMap(prev, curr), canon, forks, epoch, te, v, f)
  {
    hide AttsIn, Aggregates, AllResolve, AddCommittees, ExpectCommittees, RunAll, IsExpected, Earns, SomeEarned;
    var aggs := Aggregates(AttsIn(blocks, epoch, forks), CommitteeMap(prev, curr), canon, forks);
    FreshAfterExpect(epoch, prev, curr, te, v);
    FlagMeaning(ExpectCommittees(ExpectCommittees(map[], epoch - 1, prev), epoch, curr), epoch, aggs, te, v, f);
    EarnedInBlocks(blocks, CommitteeMap(prev, curr), canon, forks, epoch, te, v, f);
    hide AttAt;
  }

  /** For blocks the chain accepts, and one committee per validator and epoch, every record says what the attestations in the
      blocks say. */
  lemma CheckMeaning(epoch: int, blocks: Blocks, prev: seq<CommitteeInfo>, curr: seq<CommitteeInfo>, canon: int -> Root, forks: Forks,
                     te: int, v: int)
    requires OneCommittee(CommitteeMap(prev, curr)) && BlocksValid(blocks, epoch)
    requires AllResolve(AttsIn(blocks, epoch, forks), CommitteeMap(prev, curr), canon, forks)
    ensures var aggs := Aggregates(AttsIn(blocks, epoch, forks), CommitteeMap(prev, curr), canon, forks);
      RecordSays(AttAt(Checked(map[], epoch, aggs, prev, curr), te, v), blocks, CommitteeMap(prev, curr), canon, forks, epoch, te, v,
                 IsExpected(epoch, prev, curr, te, v))
  {
    hide *;
    var committees := CommitteeMap(prev, curr);
    ValidBlocksAscend(blocks, committees, canon, forks, epoch);
    var aggs := Aggregates(AttsIn(blocks, epoch, forks), committees, canon, forks);
    CheckedRecords(epoch, aggs, prev, curr, te, v);
    SaysOfBlocks(AttAt(Checked(map[], epoch, aggs, prev, curr), te, v), blocks, committees, canon, forks, epoch, te, v,
                 IsExpected(epoch, prev, curr, te, v));
  }
}
