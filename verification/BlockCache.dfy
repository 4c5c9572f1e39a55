/** The cache of block headers and block infos, which also remembers slots known to be missed. */
module BlockCache {
  import opened Constants
  import opened Options
  import opened Chain

  /** `Named` stands for "head" and "finalized", which move and are never cached. */
  datatype BlockId = BySlotNumber(slot: int) | ByRootHash(root: Root) | Named(name: string)

  datatype Header = Header(slot: int, root: Root, parentRoot: Root)

  datatype Info = Info(slot: int, blockNumber: int)

  function HeaderOf(b: Block): Header {
    Header(b.slot, b.root, b.parentRoot)
  }

  function InfoOf(b: Block): Info {
    Info(b.slot, b.number)
  }

  datatype Entry = Entry(missed: bool, header: Option<Header>, info: Option<Info>)

  /** What a caller of `set` mentions: a property given as undefined still replaces the old one. */
  datatype Patch = HeaderPatch(header: Header) | InfoPatch(info: Info) | MissedPatch

  type Cache = map<BlockId, Entry>

  function Spread(existing: Option<Entry>, patch: Patch): Entry {
    var before := existing.GetOr(Entry(false, None, None));
    match patch
    case HeaderPatch(h) => before.(missed := false, header := Some(h))
    case InfoPatch(i) => before.(missed := false, info := Some(i))
    case MissedPatch => Entry(true, None, None)
  }

  function Lookup(cache: Cache, id: BlockId): Option<Entry> {
    if id in cache then Some(cache[id]) else None
  }

  function Write(cache: Cache, id: BlockId, patch: Patch): Cache {
    if id.Named? then cache else cache[id := Spread(Lookup(cache, id), patch)]
  }

  predicate IsOld(id: BlockId, epoch: int) {
    id.ByRootHash? || (id.BySlotNumber? && id.slot < (epoch - 2) * SLOTS_PER_EPOCH)
  }

  function Purged(cache: Cache, epoch: int): Cache {
    map id | id in cache && !IsOld(id, epoch) :: cache[id]
  }

  class BlockCacheService {
    var cache: Cache

    constructor ()
      ensures cache == map[]
    {
      cache := map[];
    }

    method Set(id: BlockId, patch: Patch)
      modifies this
      ensures cache == Write(old(cache), id, patch)
    {
      if id.Named? {
        return;
      }
      var existing := Get(id);
      cache := cache[id := Spread(existing, patch)];
    }

    method Get(id: BlockId) returns (e: Option<Entry>)
      ensures e == Lookup(cache, id)
    {
      e := if id in cache then Some(cache[id]) else None;
    }

    method PurgeOld(epoch: int)
      modifies this
      ensures cache == Purged(old(cache), epoch)
      ensures cache.Keys == old(cache).Keys - (set id | id in old(cache) && (id.ByRootHash? || (id.BySlotNumber? && id.slot < (epoch - 2) * 32)))
      ensures forall id :: id in cache ==> cache[id] == old(cache)[id]
    {
      var todo := cache.Keys;
      while todo != {}
        invariant todo <= old(cache).Keys
        invariant forall id :: id in cache <==> id in old(cache) && (id in todo || !IsOld(id, epoch))
        invariant forall id :: id in cache ==> cache[id] == old(cache)[id]
      {
        var id :| id in todo;
        if IsOld(id, epoch) {
          cache := cache - {id};
        }
        todo := todo - {id};
      }
    }

    method Clear()
      modifies this
      ensures cache == map[]
    {
      cache := map[];
    }
  }

  // ---- soundness -------------------------------------------------------------------------------

  /** The block a question is about, straight from the chain. */
  function BlockOf(c: seq<Block>, id: BlockId): Option<Block> {
    match id
    case BySlotNumber(slot) => BySlot(c, slot)
    case ByRootHash(root) => ByRoot(c, root)
    case Named(_) => if c == [] then None else Some(c[|c| - 1])
  }

  ghost predicate EntrySound(c: seq<Block>, id: BlockId, e: Entry) {
    && (e.missed ==> id.BySlotNumber? && TrulyMissed(c, id.slot) && e.header.None? && e.info.None?)
    && (e.header.Some? ==> BlockOf(c, id).Some? && e.header.value == HeaderOf(BlockOf(c, id).value))
    && (e.info.Some? ==> BlockOf(c, id).Some? && e.info.value == InfoOf(BlockOf(c, id).value))
  }

  /** Whatever the cache says is what the chain says, now and later. */
  ghost predicate Sound(c: seq<Block>, cache: Cache) {
    forall id :: id in cache ==> !id.Named? && EntrySound(c, id, cache[id])
  }

  /** A fresh answer, or the knowledge of a gap. */
  ghost predicate Truthful(c: seq<Block>, id: BlockId, patch: Patch) {
    match patch
    case HeaderPatch(h) => BlockOf(c, id).Some? && h == HeaderOf(BlockOf(c, id).value)
    case InfoPatch(i) => BlockOf(c, id).Some? && i == InfoOf(BlockOf(c, id).value)
    case MissedPatch => id.BySlotNumber? && TrulyMissed(c, id.slot)
  }

  lemma WriteKeepsSound(c: seq<Block>, cache: Cache, id: BlockId, patch: Patch)
    requires ValidChain(c) && Sound(c, cache) && Truthful(c, id, patch)
    ensures Sound(c, Write(cache, id, patch))
  {
    if id.BySlotNumber? {
      BySlotFinds(c, id.slot);
    }
  }

  /** A header and an info of one block are both kept, whichever arrives first; a slot marked as missed keeps neither, and an
      answer lifts the mark. */
  lemma WritesMeet(cache: Cache, id: BlockId, h: Header, i: Info)
    requires !id.Named?
    ensures Write(Write(cache, id, HeaderPatch(h)), id, InfoPatch(i)) == cache[id := Entry(false, Some(h), Some(i))]
    ensures Write(Write(cache, id, InfoPatch(i)), id, HeaderPatch(h)) == cache[id := Entry(false, Some(h), Some(i))]
    ensures Write(cache, id, MissedPatch) == cache[id := Entry(true, None, None)]
    ensures Write(Write(cache, id, MissedPatch), id, HeaderPatch(h)) == cache[id := Entry(false, Some(h), None)]
  {
    OverwrittenBy(cache, id, Spread(Lookup(cache, id), HeaderPatch(h)), Entry(false, Some(h), Some(i)));
    OverwrittenBy(cache, id, Spread(Lookup(cache, id), InfoPatch(i)), Entry(false, Some(h), Some(i)));
    OverwrittenBy(cache, id, Entry(true, None, None), Entry(false, Some(h), None));
  }

  lemma OverwrittenBy(cache: Cache, id: BlockId, first: Entry, second: Entry)
    ensures cache[id := first][id := second] == cache[id := second]
  {
  }

  lemma GrowthKeepsSound(c: seq<Block>, more: seq<Block>, cache: Cache)
    requires ValidChain(c) && ValidChain(c + more) && Sound(c, cache)
    ensures Sound(c + more, cache)
  {
    forall id | id in cache
      ensures EntrySound(c + more, id, cache[id])
    {
      match id
      case BySlotNumber(slot) => GrowthKeepsFacts(c, more, slot, "");
      case ByRootHash(root) => GrowthKeepsFacts(c, more, 0, root);
      case Named(_) =>
    }
  }

  /** A cached answer is the answer the nodes would give. */
  lemma HitIsAnswer(c: seq<Block>, cache: Cache, id: BlockId)
    requires ValidChain(c) && Sound(c, cache) && id in cache
    ensures cache[id].missed ==> BlockOf(c, id).None?
    ensures cache[id].header.Some? ==> BlockOf(c, id).Some? && cache[id].header == Some(HeaderOf(BlockOf(c, id).value))
    ensures cache[id].info.Some? ==> BlockOf(c, id).Some? && cache[id].info == Some(InfoOf(BlockOf(c, id).value))
  {
    if cache[id].missed {
      BySlotFinds(c, id.slot);
    }
  }

  // ---- every run -------------------------------------------------------------------------------

  /** What can happen to the cache and the chain: an answer arrives, a gap is marked, old entries go, the cache is
      cleared, the chain grows. */
  datatype CacheStep = Store(id: BlockId, patch: Patch) | PurgeOld(epoch: int) | Clear | Grow(more: seq<Block>)

  datatype CacheState = CacheState(chain: seq<Block>, cache: Cache)

  function After(s: CacheState, step: CacheStep): CacheState {
    match step
    case Store(id, patch) => s.(cache := Write(s.cache, id, patch))
    case PurgeOld(epoch) => s.(cache := Purged(s.cache, epoch))
    case Clear => s.(cache := map[])
    case Grow(more) => s.(chain := s.chain + more)
  }

  ghost predicate CanHappen(s: CacheState, step: CacheStep) {
    match step
    case Store(id, patch) => Truthful(s.chain, id, patch)
    case Grow(more) => ValidChain(s.chain + more)
    case _ => true
  }

  function AfterAll(s: CacheState, steps: seq<CacheStep>): CacheState {
    if steps == [] then s else After(AfterAll(s, steps[..|steps| - 1]), steps[|steps| - 1])
  }

  ghost predicate CanRun(s: CacheState, steps: seq<CacheStep>) {
    forall i :: 0 <= i < |steps| ==> CanHappen(AfterAll(s, steps[..i]), steps[i])
  }

  /** In every run from an empty cache the cache stays sound. */
  lemma {:induction false} AlwaysSound(c: seq<Block>, steps: seq<CacheStep>)
    requires ValidChain(c) && CanRun(CacheState(c, map[]), steps)
    ensures var s := AfterAll(CacheState(c, map[]), steps); ValidChain(s.chain) && Sound(s.chain, s.cache)
  {
    if steps != [] {
      var init, last := steps[..|steps| - 1], steps[|steps| - 1];
      assert forall i :: 0 <= i < |init| ==> steps[..i] == init[..i] && steps[i] == init[i];
      AlwaysSound(c, init);
      var s := AfterAll(CacheState(c, map[]), init);
      assert CanHappen(s, last);
      hide ValidChain;
      match last
      case Store(id, patch) => WriteKeepsSound(s.chain, s.cache, id, patch);
      case Grow(more) => GrowthKeepsSound(s.chain, more, s.cache);
      case _ =>
    }
  }
}
