/** Finding blocks around slots that may be missed: a scan slot by slot in either direction, the parent root of the
    next block, or a walk along execution-layer timestamps. All of them go through one cache. */
module ConsensusProvider {
  import opened Constants
  import opened Options
  import opened Chain
  import opened BlockCache

  datatype Reply<T> = Got(value: Option<T>) | Failed

  /** `TooDeep` is the program's MaxDeepError; `Error` any other exception. */
  datatype Outcome = Found(header: Header) | TooDeep | Error
  datatype Surrounding = Pair(next: Header, previous: Header) | NoPairTooDeep | PairError

  ghost predicate FindsLastUpTo(c: seq<Block>, slot: int, h: Header) {
    exists b :: IsLastUpTo(c, slot, b) && h == HeaderOf(b)
  }

  ghost predicate FindsNextAfter(c: seq<Block>, slot: int, h: Header) {
    exists b :: IsNextAfter(c, slot, b) && h == HeaderOf(b)
  }

  ghost predicate SomeAfter(c: seq<Block>, slot: int) {
    exists b :: b in c && b.slot > slot
  }

  /** A scan forward from the slot finds a block within `maxDeep` further slots. */
  ghost predicate NextInReach(c: seq<Block>, slot: int, maxDeep: int) {
    exists b :: b in c && slot + 1 <= b.slot <= slot + 1 + maxDeep
  }

  /** A scan back from the slot does. */
  ghost predicate LastInReach(c: seq<Block>, slot: int, maxDeep: int) {
    exists b :: b in c && slot - maxDeep <= b.slot <= slot
  }

  /** No block before the slot is known to start a walk from: the database knows none, or names a slot that is missed. */
  predicate NoStart(c: seq<Block>, previousKnown: int, slot: int) {
    0 <= previousKnown <= slot && (previousKnown == 0 || BySlot(c, previousKnown).None?)
  }

  class ConsensusProviderService {
    const cache: BlockCacheService
    const genesisTime: int
    /** What every node and the execution layer agree on. */
    var chain: seq<Block>
    /** Whether every request is answered in the end; without this any request may fail. */
    const reliable: bool

    ghost predicate Valid()
      reads this, cache
    {
      ValidChain(chain) && Sound(chain, cache.cache)
    }

    constructor (genesisTime: int, chain: seq<Block>, reliable: bool)
      requires ValidChain(chain)
      ensures Valid() && this.chain == chain && this.reliable == reliable && fresh(cache)
    {
      cache := new BlockCacheService();
      this.genesisTime := genesisTime;
      this.chain := chain;
      this.reliable := reliable;
    }

    /** Between two steps of a lookup other lookups may write to, purge or clear the cache. A caller can rely on
        its soundness and on nothing else about it. */
    method Await()
      requires Valid()
      modifies cache
      ensures Valid()
    {
      if * {
        cache.Clear();
      } else if * {
        var epoch: int := *;
        cache.PurgeOld(epoch);
      }
    }

    /** New blocks never falsify what is cached. */
    method Grow(more: seq<Block>)
      requires Valid() && ValidChain(chain + more)
      modifies this
      ensures Valid() && chain == old(chain) + more
    {
      GrowthKeepsSound(chain, more, cache.cache);
      chain := chain + more;
    }

    /** A request for one block, with all retries and fallbacks. A negative slot is not a valid identifier. */
    method Request(id: BlockId) returns (r: Reply<Block>)
      requires Valid()
      modifies cache
      ensures Valid()
      ensures r.Got? ==> r.value == BlockOf(chain, id) && !(id.BySlotNumber? && id.slot < 0)
      ensures reliable && !(id.BySlotNumber? && id.slot < 0) ==> r.Got?
    {
      Await();
      if id.BySlotNumber? && id.slot < 0 {
        return Failed;
      }
      if !reliable {
        if * {
          return Failed;
        }
      }
      r := Got(BlockOf(chain, id));
    }

    method GetBlockHeader(id: BlockId, ignoreCache: bool) returns (r: Reply<Header>)
      requires Valid()
      modifies cache
      ensures Valid()
      ensures r.Got? ==> r.value == (if BlockOf(chain, id).Some? then Some(HeaderOf(BlockOf(chain, id).value)) else None)
      ensures r.Got? && r.value.Some? && !ignoreCache && !id.Named? ==> id in cache.cache && cache.cache[id].header == r.value
      ensures r.Got? ==> !(id.BySlotNumber? && id.slot < 0)
      ensures reliable && !(id.BySlotNumber? && id.slot < 0) ==> r.Got?
    {
      var cached := cache.Get(id);
      if !ignoreCache && cached.Some? && (cached.value.missed || cached.value.header.Some?) {
        HitIsAnswer(chain, cache.cache, id);
        HitIsNotNegative(chain, cache.cache, id);
        return Got(if cached.value.missed then None else cached.value.header);
      }
      var answer := Request(id);
      if answer.Failed? {
        return Failed;
      }
      if answer.value.None? {
        return Got(None);
      }
      var header := HeaderOf(answer.value.value);
      if !ignoreCache {
        WriteKeepsSound(chain, cache.cache, id, HeaderPatch(header));
        cache.Set(id, HeaderPatch(header));
      }
      r := Got(Some(header));
    }

    method GetBlockInfo(id: BlockId) returns (r: Reply<Info>)
      requires Valid()
      modifies cache
      ensures Valid()
      ensures r.Got? ==> r.value == (if BlockOf(chain, id).Some? then Some(InfoOf(BlockOf(chain, id).value)) else None)
      ensures r.Got? && r.value.Some? && !id.Named? ==> id in cache.cache && cache.cache[id].info == r.value
      ensures r.Got? ==> !(id.BySlotNumber? && id.slot < 0)
      ensures reliable && !(id.BySlotNumber? && id.slot < 0) ==> r.Got?
    {
      var cached := cache.Get(id);
      if cached.Some? && (cached.value.missed || cached.value.info.Some?) {
        HitIsAnswer(chain, cache.cache, id);
        HitIsNotNegative(chain, cache.cache, id);
        return Got(if cached.value.missed then None else cached.value.info);
      }
      var answer := Request(id);
      if answer.Failed? {
        return Failed;
      }
      if answer.value.None? {
        return Got(None);
      }
      var info := InfoOf(answer.value.value);
      WriteKeepsSound(chain, cache.cache, id, InfoPatch(info));
      cache.Set(id, InfoPatch(info));
      r := Got(Some(info));
    }

    /** Finds the next block if it lies within reach, and says so if it does not. */
    method GetNextInDense(slot: int, maxDeep: int) returns (r: Outcome)
      requires Valid()
      modifies cache
      ensures Valid()
      ensures r.Found? ==> FindsNextAfter(chain, slot, r.header) && r.header.slot <= slot + 1 + maxDeep
      ensures r.TooDeep? ==> AllMissed(chain, slot + 1, slot + 1 + maxDeep)
      ensures reliable && slot >= -1 ==> !r.Error? && (r.Found? <==> NextInReach(chain, slot, maxDeep))
    {
      var current, deep := slot + 1, maxDeep;
      while deep >= 0
        invariant Valid()
        invariant current + deep == slot + 1 + maxDeep && current > slot
        invariant AllMissed(chain, slot + 1, current - 1)
        decreases deep
      {
        var header := GetBlockHeader(BySlotNumber(current), false);
        if header.Failed? {
          return Error;
        }
        BySlotFinds(chain, current);
        if header.value.Some? {
          assert IsNextAfter(chain, slot, BySlot(chain, current).value);
          return Found(header.value.value);
        }
        current, deep := current + 1, deep - 1;
      }
      r := TooDeep;
    }

    method GetCurrentOrPreviousInDense(slot: int, maxDeep: int, ignoreCache: bool) returns (r: Outcome)
      requires Valid()
      modifies cache
      ensures Valid()
      ensures r.Found? ==> FindsLastUpTo(chain, slot, r.header) && r.header.slot >= slot - maxDeep
      ensures r.TooDeep? ==> AllMissed(chain, slot - maxDeep, slot)
      ensures reliable && slot >= 0 ==> !r.Error? && (r.Found? <==> LastInReach(chain, slot, maxDeep))
    {
      var current, deep := slot, maxDeep;
      while deep >= 0
        invariant Valid()
        invariant current - deep == slot - maxDeep && current <= slot
        invariant AllMissed(chain, current + 1, slot)
        invariant slot >= 0 ==> current >= 0
        decreases deep
      {
        var header := GetBlockHeader(BySlotNumber(current), ignoreCache);
        if header.Failed? {
          return Error;
        }
        BySlotFinds(chain, current);
        if header.value.Some? {
          assert IsLastUpTo(chain, slot, BySlot(chain, current).value);
          return Found(header.value.value);
        }
        assert chain[0] in chain;
        current, deep := current - 1, deep - 1;
      }
      r := TooDeep;
    }

    method GetSurroundingInDense(slot: int, maxDeep: int) returns (r: Surrounding)
      requires Valid()
      modifies cache
      ensures Valid()
      ensures r.Pair? ==> FindsNextAfter(chain, slot, r.next) && FindsLastUpTo(chain, slot, r.previous)
      ensures r.NoPairTooDeep? ==> AllMissed(chain, slot + 1, slot + 1 + maxDeep) || AllMissed(chain, slot - maxDeep, slot)
      ensures reliable && slot >= 0 ==> !r.PairError? && (r.Pair? <==> NextInReach(chain, slot, maxDeep) && LastInReach(chain, slot, maxDeep))
    {
      var next := GetNextInDense(slot, maxDeep);
      if !next.Found? {
        return if next.TooDeep? then NoPairTooDeep else PairError;
      }
      var previous := GetCurrentOrPreviousInDense(slot, maxDeep, false);
      if !previous.Found? {
        return if previous.TooDeep? then NoPairTooDeep else PairError;
      }
      r := Pair(next.header, previous.header);
    }

    /** The execution layer's timestamp of a block number; it fails for a block that does not exist. */
    method GetBlockTimestamp(number: int) returns (r: Reply<int>)
      requires Valid()
      modifies cache
      ensures Valid()
      ensures r.Got? ==> r.value.Some? && ByNumber(chain, number).Some?
                         && r.value.value == genesisTime + SLOT_TIME * ByNumber(chain, number).value.slot
      ensures reliable && ByNumber(chain, number).Some? ==> r.Got?
    {
      Await();
      var b := ByNumber(chain, number);
      if b.None? {
        return Failed;
      }
      if !reliable {
        if * {
          return Failed;
        }
      }
      r := Got(Some(genesisTime + SLOT_TIME * b.value.slot));
    }

    /** Records the slots strictly between two consecutive blocks as missed. */
    method MarkMissed(previousSlot: int, slot: int)
      requires Valid() && exists i :: 0 <= i && i + 1 < |chain| && chain[i].slot == previousSlot && chain[i + 1].slot == slot
      modifies cache
      ensures Valid()
      ensures forall s :: previousSlot < s < slot ==> Lookup(cache.cache, BySlotNumber(s)) == Some(Entry(true, None, None))
    {
      ghost var i: nat :| i + 1 < |chain| && chain[i].slot == previousSlot && chain[i + 1].slot == slot;
      for s := previousSlot + 1 to slot
        invariant Valid()
        invariant forall u :: previousSlot < u < s ==> Lookup(cache.cache, BySlotNumber(u)) == Some(Entry(true, None, None))
      {
        GapIsMissed(chain, i, s);
        WriteKeepsSound(chain, cache.cache, BySlotNumber(s), MissedPatch);
        cache.Set(BySlotNumber(s), MissedPatch);
      }
    }

    /** One step of the sparse walk: from a block to the slot of its successor, marking the gap. */
    method StepToNext(slot: int, info: Info) returns (r: Reply<int>)
      requires Valid() && BySlot(chain, slot).Some? && info == InfoOf(BySlot(chain, slot).value)
      modifies cache
      ensures Valid()
      ensures r.Got? ==> r.value.Some? && exists i :: 0 <= i && i + 1 < |chain| && chain[i].slot == slot && chain[i + 1].slot == r.value.value
      ensures r.Got? ==> forall s :: slot < s < r.value.value ==> Lookup(cache.cache, BySlotNumber(s)) == Some(Entry(true, None, None))
      ensures reliable && SomeAfter(chain, slot) ==> r.Got?
    {
      var i := IndexOf(chain, slot);
      ByNumberFinds(chain, chain[0].number, info.blockNumber + 1);
      var slotTime := genesisTime + SLOT_TIME * slot;
      if SomeAfter(chain, slot) {
        HasSuccessor(chain, i, slot);
      }
      var nextBlockTime := GetBlockTimestamp(info.blockNumber + 1);
      if nextBlockTime.Failed? {
        return Failed;
      }
      var next := slot + (nextBlockTime.value.value - slotTime) / SLOT_TIME;
      assert next == chain[i + 1].slot;
      MarkMissed(slot, next);
      r := Got(Some(next));
    }

    /** Walks from a block known to exist to the two blocks around the target. A start that turns out to be missed,
        or no start at all, falls back to the scans. */
    method GetSurroundingInSparse(targetSlot: int, previousKnown: int, maxDeep: int) returns (r: Surrounding)
      requires Valid()
      modifies cache
      ensures Valid()
      ensures r.Pair? ==> FindsNextAfter(chain, targetSlot, r.next) && FindsLastUpTo(chain, targetSlot, r.previous)
      ensures previousKnown > targetSlot ==> r.PairError?
      ensures r.NoPairTooDeep? ==> && (previousKnown == 0 || BySlot(chain, previousKnown).None?)
                                   && (AllMissed(chain, targetSlot + 1, targetSlot + 1 + maxDeep) || AllMissed(chain, targetSlot - maxDeep, targetSlot))
      ensures reliable && 0 < previousKnown <= targetSlot && BySlot(chain, previousKnown).Some? ==> (r.Pair? <==> SomeAfter(chain, targetSlot))
      ensures reliable && NoStart(chain, previousKnown, targetSlot) ==>
                !r.PairError? && (r.Pair? <==> NextInReach(chain, targetSlot, maxDeep) && LastInReach(chain, targetSlot, maxDeep))
    {
      hide ValidChain, Sound, FindsNextAfter, FindsLastUpTo, NextInReach, LastInReach, SomeAfter, AllMissed, BySlot;
      if previousKnown > targetSlot {
        return PairError;
      }
      if previousKnown == 0 {
        r := GetSurroundingInDense(targetSlot, maxDeep);
        return;
      }
      var slot, previousSlot := previousKnown, previousKnown;
      while slot <= targetSlot
        invariant Valid()
        invariant slot == previousSlot == previousKnown || Consecutive(chain, previousSlot, slot)
        invariant slot > targetSlot ==> previousSlot <= targetSlot
        invariant slot == previousKnown || BySlot(chain, previousKnown).Some?
        decreases targetSlot - slot
      {
        previousSlot := slot;
        var slotInfo := GetBlockInfo(BySlotNumber(slot));
        if slotInfo.Failed? {
          NegativeIsMissing(chain, slot);
          return PairError;
        }
        if slotInfo.value.None? {
          StillOnStart(chain, previousKnown, slot);
          r := GetSurroundingInDense(targetSlot, maxDeep);
          return;
        }
        AfterIsLater(chain, slot, targetSlot);
        var next := StepToNext(slot, slotInfo.value.value);
        if next.Failed? {
          return PairError;
        }
        ConsecutiveAscend(chain, slot, next.value.value);
        slot := next.value.value;
      }
      r := Headers(targetSlot, previousSlot, slot);
    }

    /** The headers of the two slots the walk ended on. */
    method Headers(targetSlot: int, previousSlot: int, slot: int) returns (r: Surrounding)
      requires Valid() && Consecutive(chain, previousSlot, slot) && previousSlot <= targetSlot < slot
      modifies cache
      ensures Valid()
      ensures r.Pair? ==> FindsNextAfter(chain, targetSlot, r.next) && FindsLastUpTo(chain, targetSlot, r.previous)
      ensures !r.NoPairTooDeep? && (reliable ==> r.Pair?)
      ensures SomeAfter(chain, targetSlot)
    {
      EndsOfWalk(chain, targetSlot, previousSlot, slot);
      var nextHeader := GetBlockHeader(BySlotNumber(slot), false);
      if nextHeader.Failed? || nextHeader.value.None? {
        return PairError;
      }
      var previousHeader := GetBlockHeader(BySlotNumber(previousSlot), false);
      if previousHeader.Failed? || previousHeader.value.None? {
        return PairError;
      }
      r := Pair(nextHeader.value.value, previousHeader.value.value);
    }

    /** `lastNotMissed` is the last block the database knows of for the epoch before the slot's, or 0. */
    method GetNextNotMissed(slot: int, sparseMode: bool, lastNotMissed: int, maxDeep: int) returns (r: Outcome)
      requires Valid()
      modifies cache
      ensures Valid()
      ensures r.Found? ==> FindsNextAfter(chain, slot, r.header)
      ensures reliable && slot >= 0 && !sparseMode ==> !r.Error? && (r.Found? <==> NextInReach(chain, slot, maxDeep))
      ensures reliable && sparseMode && 0 < lastNotMissed <= slot && BySlot(chain, lastNotMissed).Some? ==> (r.Found? <==> SomeAfter(chain, slot))
      ensures reliable && sparseMode && NoStart(chain, lastNotMissed, slot) ==>
                !r.Error? && (r.Found? <==> NextInReach(chain, slot, maxDeep) && LastInReach(chain, slot, maxDeep))
    {
      if sparseMode {
        var s := GetSurroundingInSparse(slot, lastNotMissed, maxDeep);
        return if s.Pair? then Found(s.next) else if s.NoPairTooDeep? then TooDeep else Error;
      }
      r := GetNextInDense(slot, maxDeep);
    }

    method GetCurrentOrPrevious(slot: int, sparseMode: bool, lastNotMissed: int, maxDeep: int, ignoreCache: bool) returns (r: Outcome)
      requires Valid()
      modifies cache
      ensures Valid()
      ensures r.Found? ==> FindsLastUpTo(chain, slot, r.header) && (!sparseMode ==> r.header.slot >= slot - maxDeep)
      ensures reliable && slot >= 0 && !sparseMode ==> !r.Error? && (r.Found? <==> LastInReach(chain, slot, maxDeep))
      ensures reliable && sparseMode && 0 < lastNotMissed <= slot && BySlot(chain, lastNotMissed).Some? ==> (r.Found? <==> SomeAfter(chain, slot))
      ensures reliable && sparseMode && NoStart(chain, lastNotMissed, slot) ==>
                !r.Error? && (r.Found? <==> NextInReach(chain, slot, maxDeep) && LastInReach(chain, slot, maxDeep))
    {
      if sparseMode {
        var s := GetSurroundingInSparse(slot, lastNotMissed, maxDeep);
        return if s.Pair? then Found(s.previous) else if s.NoPairTooDeep? then TooDeep else Error;
      }
      r := GetCurrentOrPreviousInDense(slot, maxDeep, ignoreCache);
    }

    /** The header of the slot or, if the slot is missed, of the block named by the parent root of the next one. */
    method GetSlotHeaderOrPreviousIfMissed(slot: int, sparseMode: bool, lastNotMissed: int, maxDeep: int) returns (r: Outcome)
      requires Valid()
      modifies cache
      ensures Valid()
      ensures r.Found? ==> FindsLastUpTo(chain, slot, r.header)
      ensures reliable && slot >= 0 && !sparseMode ==>
                !r.Error? && (r.Found? <==> BySlot(chain, slot).Some? || NextInReach(chain, slot, maxDeep))
      ensures reliable && sparseMode && 0 < lastNotMissed <= slot && BySlot(chain, lastNotMissed).Some? ==>
                (r.Found? <==> BySlot(chain, slot).Some? || SomeAfter(chain, slot))
      ensures reliable && sparseMode && NoStart(chain, lastNotMissed, slot) ==>
                !r.Error? && (r.Found? <==> BySlot(chain, slot).Some? || (NextInReach(chain, slot, maxDeep) && LastInReach(chain, slot, maxDeep)))
    {
      var header := GetBlockHeader(BySlotNumber(slot), false);
      if header.Failed? {
        return Error;
      }
      BySlotFinds(chain, slot);
      if header.value.Some? {
        assert IsLastUpTo(chain, slot, BySlot(chain, slot).value);
        return Found(header.value.value);
      }
      var next := GetNextNotMissed(slot, sparseMode, lastNotMissed, maxDeep);
      if !next.Found? {
        return next;
      }
      ghost var n :| IsNextAfter(chain, slot, n) && next.header == HeaderOf(n);
      ParentOfNext(chain, slot, n);
      var previous := GetBlockHeader(ByRootHash(next.header.parentRoot), false);
      if previous.Failed? || previous.value.None? {
        return Error;
      }
      r := Found(previous.value.value);
    }

    /** The root on which the duties of an epoch depend: that of the last block before the epoch. With answering nodes
        the dense search succeeds exactly if that block is within reach, the sparse one from a known block exactly
        if the chain has reached the epoch, and the sparse one without a known block exactly if both scans succeed. */
    method GetDutyDependentRoot(epoch: int, sparseMode: bool, lastNotMissed: int, maxDeep: int, ignoreCache: bool) returns (root: Option<Root>)
      requires Valid()
      modifies cache
      ensures Valid()
      ensures root.Some? ==> exists b :: IsLastUpTo(chain, epoch * SLOTS_PER_EPOCH - 1, b) && root == Some(b.root)
      ensures reliable && epoch > 0 && !sparseMode ==> (root.Some? <==> LastInReach(chain, epoch * SLOTS_PER_EPOCH - 1, maxDeep))
      ensures reliable && sparseMode && 0 < lastNotMissed < epoch * SLOTS_PER_EPOCH && BySlot(chain, lastNotMissed).Some? ==>
                (root.Some? <==> SomeAfter(chain, epoch * SLOTS_PER_EPOCH - 1))
      ensures reliable && sparseMode && NoStart(chain, lastNotMissed, epoch * SLOTS_PER_EPOCH - 1) ==>
                (root.Some? <==> NextInReach(chain, epoch * SLOTS_PER_EPOCH - 1, maxDeep) && LastInReach(chain, epoch * SLOTS_PER_EPOCH - 1, maxDeep))
    {
      var header := GetCurrentOrPrevious(epoch * SLOTS_PER_EPOCH - 1, sparseMode, lastNotMissed, maxDeep, ignoreCache);
      root := if header.Found? then Some(header.header.root) else None;
    }
  }

  // ---- agreement -------------------------------------------------------------------------------

  /** Two lookups that succeed for the same slot return the same header, whichever way each of them went. */
  lemma LookupsAgree(c: seq<Block>, slot: int, h: Header, h': Header)
    requires ValidChain(c)
    requires (FindsLastUpTo(c, slot, h) && FindsLastUpTo(c, slot, h')) || (FindsNextAfter(c, slot, h) && FindsNextAfter(c, slot, h'))
    ensures h == h'
  {
    if FindsLastUpTo(c, slot, h) && FindsLastUpTo(c, slot, h') {
      var b :| IsLastUpTo(c, slot, b) && h == HeaderOf(b);
      var b' :| IsLastUpTo(c, slot, b') && h' == HeaderOf(b');
      AnswersAgree(c, slot, b, b');
    } else {
      var b :| IsNextAfter(c, slot, b) && h == HeaderOf(b);
      var b' :| IsNextAfter(c, slot, b') && h' == HeaderOf(b');
      AnswersAgree(c, slot, b, b');
    }
  }

  /** A block is within reach of a scan exactly if the one it looks for is. */
  lemma ReachDecides(c: seq<Block>, slot: int, maxDeep: int, last: Header, next: Header)
    requires ValidChain(c) && FindsLastUpTo(c, slot, last) && FindsNextAfter(c, slot, next)
    ensures LastInReach(c, slot, maxDeep) <==> last.slot >= slot - maxDeep
    ensures NextInReach(c, slot, maxDeep) <==> next.slot <= slot + 1 + maxDeep
  {
    var b :| IsLastUpTo(c, slot, b) && last == HeaderOf(b);
    var n :| IsNextAfter(c, slot, n) && next == HeaderOf(n);
  }

  // ---- facts about the chain the walk relies on ------------------------------------------------

  ghost predicate Consecutive(c: seq<Block>, slot: int, next: int) {
    exists i :: 0 <= i && i + 1 < |c| && c[i].slot == slot && c[i + 1].slot == next
  }

  lemma IndexOf(c: seq<Block>, slot: int) returns (i: nat)
    requires ValidChain(c) && BySlot(c, slot).Some?
    ensures i < |c| && c[i] == BySlot(c, slot).value && c[i].slot == slot
  {
    BySlotFinds(c, slot);
    i :| 0 <= i < |c| && c[i] == BySlot(c, slot).value;
  }

  lemma HasSuccessor(c: seq<Block>, i: nat, slot: int)
    requires ValidChain(c) && i < |c| && c[i].slot == slot && SomeAfter(c, slot)
    ensures i + 1 < |c|
  {
    var b :| b in c && b.slot > slot;
    var j :| 0 <= j < |c| && c[j] == b;
    LaterIndex(c, i, j);
  }

  lemma HitIsNotNegative(c: seq<Block>, cache: Cache, id: BlockId)
    requires ValidChain(c) && Sound(c, cache) && id in cache && (cache[id].missed || cache[id].header.Some? || cache[id].info.Some?)
    ensures !(id.BySlotNumber? && id.slot < 0)
  {
    if id.BySlotNumber? && BySlot(c, id.slot).Some? {
      var i := IndexOf(c, id.slot);
      assert i > 0 ==> c[0].slot < c[i].slot;
    }
  }

  lemma GapIsMissed(c: seq<Block>, i: nat, slot: int)
    requires ValidChain(c) && i + 1 < |c| && c[i].slot < slot < c[i + 1].slot
    ensures TrulyMissed(c, slot)
  {
    Surround(c, i, slot);
    assert c[i + 1] in c;
  }

  lemma NegativeIsMissing(c: seq<Block>, slot: int)
    requires ValidChain(c)
    ensures slot < 0 ==> BySlot(c, slot).None?
  {
    BySlotFinds(c, slot);
  }

  lemma StillOnStart(c: seq<Block>, start: int, slot: int)
    requires ValidChain(c) && BySlot(c, slot).None?
    requires slot == start || exists previous :: Consecutive(c, previous, slot)
    ensures slot == start
  {
    BySlotFinds(c, slot);
  }

  lemma AfterIsLater(c: seq<Block>, slot: int, target: int)
    requires slot <= target
    ensures SomeAfter(c, target) ==> SomeAfter(c, slot)
  {
  }

  lemma ConsecutiveAscend(c: seq<Block>, slot: int, next: int)
    requires ValidChain(c) && Consecutive(c, slot, next)
    ensures slot < next
  {
  }

  lemma EndsOfWalk(c: seq<Block>, target: int, previous: int, slot: int)
    requires ValidChain(c) && Consecutive(c, previous, slot) && previous <= target < slot
    ensures BySlot(c, slot).Some? && FindsNextAfter(c, target, HeaderOf(BySlot(c, slot).value))
    ensures BySlot(c, previous).Some? && FindsLastUpTo(c, target, HeaderOf(BySlot(c, previous).value))
    ensures previous >= 0 && SomeAfter(c, target)
  {
    var i :| 0 <= i && i + 1 < |c| && c[i].slot == previous && c[i + 1].slot == slot;
    Surround(c, i, target);
    BySlotFinds(c, slot);
    BySlotFinds(c, previous);
  }
}
