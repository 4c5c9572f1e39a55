/** The canonical chain of blocks with its missed slots, and what a question about it should be answered. */
module Chain {
  import opened Options

  type Root = string

  datatype Block = Block(slot: int, root: Root, parentRoot: Root, number: int)

  /** Slots ascend but may leave gaps; each block names its predecessor; execution block numbers are consecutive.
      The chain starts with the genesis block of slot 0. */
  ghost predicate ValidChain(c: seq<Block>) {
    && c != [] && c[0].slot == 0
    && (forall i, j :: 0 <= i < j < |c| ==> c[i].slot < c[j].slot)
    && (forall i, j :: 0 <= i < j < |c| ==> c[i].root != c[j].root)
    && (forall i :: 0 < i < |c| ==> c[i].parentRoot == c[i - 1].root)
    && (forall i :: 0 <= i < |c| ==> c[i].number == c[0].number + i)
  }

  // ---- what the nodes know ---------------------------------------------------------------------

  function BySlot(c: seq<Block>, slot: int): Option<Block> {
    if c == [] then None else if c[|c| - 1].slot == slot then Some(c[|c| - 1]) else BySlot(c[..|c| - 1], slot)
  }

  function ByRoot(c: seq<Block>, root: Root): Option<Block> {
    if c == [] then None else if c[|c| - 1].root == root then Some(c[|c| - 1]) else ByRoot(c[..|c| - 1], root)
  }

  function ByNumber(c: seq<Block>, number: int): Option<Block> {
    if c == [] then None else if c[|c| - 1].number == number then Some(c[|c| - 1]) else ByNumber(c[..|c| - 1], number)
  }

  lemma {:induction false} BySlotFinds(c: seq<Block>, slot: int)
    requires forall i, j :: 0 <= i < j < |c| ==> c[i].slot < c[j].slot
    ensures BySlot(c, slot).Some? ==> BySlot(c, slot).value in c && BySlot(c, slot).value.slot == slot
    ensures forall b :: b in c && b.slot == slot ==> BySlot(c, slot) == Some(b)
  {
    if c != [] {
      BySlotFinds(c[..|c| - 1], slot);
      assert forall b :: b in c <==> b in c[..|c| - 1] || b == c[|c| - 1] by {
        assert c == c[..|c| - 1] + [c[|c| - 1]];
      }
    }
  }

  lemma {:induction false} ByRootFinds(c: seq<Block>, root: Root)
    requires forall i, j :: 0 <= i < j < |c| ==> c[i].root != c[j].root
    ensures ByRoot(c, root).Some? ==> ByRoot(c, root).value in c && ByRoot(c, root).value.root == root
    ensures forall b :: b in c && b.root == root ==> ByRoot(c, root) == Some(b)
  {
    if c != [] {
      ByRootFinds(c[..|c| - 1], root);
      assert forall b :: b in c <==> b in c[..|c| - 1] || b == c[|c| - 1] by {
        assert c == c[..|c| - 1] + [c[|c| - 1]];
      }
    }
  }

  lemma {:induction false} ByNumberFinds(c: seq<Block>, first: int, number: int)
    requires forall i :: 0 <= i < |c| ==> c[i].number == first + i
    ensures ByNumber(c, number) == if first <= number < first + |c| then Some(c[number - first]) else None
  {
    if c != [] {
      ByNumberFinds(c[..|c| - 1], first, number);
    }
  }

  // ---- questions about a slot ------------------------------------------------------------------

  ghost predicate IsLastUpTo(c: seq<Block>, slot: int, b: Block) {
    b in c && b.slot <= slot && forall x :: x in c && x.slot <= slot ==> x.slot <= b.slot
  }

  ghost predicate IsNextAfter(c: seq<Block>, slot: int, b: Block) {
    b in c && b.slot > slot && forall x :: x in c && x.slot > slot ==> x.slot >= b.slot
  }

  /** No block in the slots `from..to`, both included. */
  ghost predicate AllMissed(c: seq<Block>, from: int, to: int) {
    forall b :: b in c && from <= b.slot <= to ==> false
  }

  /** A slot without a block that will never have one: the chain has moved on. */
  ghost predicate TrulyMissed(c: seq<Block>, slot: int) {
    && slot >= 0
    && (forall b :: b in c ==> b.slot != slot)
    && exists b :: b in c && b.slot > slot
  }

  lemma SameSlotSameBlock(c: seq<Block>, a: Block, b: Block)
    requires ValidChain(c) && a in c && b in c && a.slot == b.slot
    ensures a == b
  {
    var i :| 0 <= i < |c| && c[i] == a;
    var j :| 0 <= j < |c| && c[j] == b;
    assert c[i].slot == c[j].slot;
    assert !(i < j) && !(j < i);
  }

  /** All ways of finding the last block up to a slot agree, and so do all ways of finding the next one. */
  lemma AnswersAgree(c: seq<Block>, slot: int, a: Block, b: Block)
    requires ValidChain(c)
    requires (IsLastUpTo(c, slot, a) && IsLastUpTo(c, slot, b)) || (IsNextAfter(c, slot, a) && IsNextAfter(c, slot, b))
    ensures a == b
  {
    SameSlotSameBlock(c, a, b);
  }

  /** Consecutive blocks surround every slot from the first up to the second. */
  lemma Surround(c: seq<Block>, i: nat, slot: int)
    requires ValidChain(c) && i + 1 < |c| && c[i].slot <= slot < c[i + 1].slot
    ensures IsLastUpTo(c, slot, c[i]) && IsNextAfter(c, slot, c[i + 1])
    ensures AllMissed(c, c[i].slot + 1, c[i + 1].slot - 1)
  {
    forall x | x in c
      ensures x.slot <= c[i].slot || x.slot >= c[i + 1].slot
    {
      var j :| 0 <= j < |c| && c[j] == x;
      assert j < i ==> c[j].slot < c[i].slot;
      assert j > i + 1 ==> c[i + 1].slot < c[j].slot;
    }
  }

  /** The parent root of the next block names the last block up to the slot. */
  lemma ParentOfNext(c: seq<Block>, slot: int, next: Block)
    requires ValidChain(c) && slot >= 0 && IsNextAfter(c, slot, next)
    ensures ByRoot(c, next.parentRoot).Some? && IsLastUpTo(c, slot, ByRoot(c, next.parentRoot).value)
  {
    var i :| 0 <= i < |c| && c[i] == next;
    assert i > 0;
    assert c[i - 1].slot < c[i].slot && c[i - 1] in c;
    Surround(c, i - 1, slot);
    ByRootFinds(c, next.parentRoot);
  }

  lemma LaterIndex(c: seq<Block>, i: nat, j: nat)
    requires ValidChain(c) && i < |c| && j < |c| && c[i].slot < c[j].slot
    ensures i < j
  {
  }

  // ---- growth ----------------------------------------------------------------------------------

  lemma GrowthKeepsFacts(c: seq<Block>, more: seq<Block>, slot: int, root: Root)
    requires ValidChain(c) && ValidChain(c + more)
    ensures TrulyMissed(c, slot) ==> TrulyMissed(c + more, slot)
    ensures BySlot(c, slot).Some? ==> BySlot(c + more, slot) == BySlot(c, slot)
    ensures ByRoot(c, root).Some? ==> ByRoot(c + more, root) == ByRoot(c, root)
  {
    BySlotFinds(c, slot);
    ByRootFinds(c, root);
    BySlotFinds(c + more, slot);
    ByRootFinds(c + more, root);
    assert forall b :: b in c ==> b in c + more;
    if TrulyMissed(c, slot) {
      MissedForGood(c, more, slot);
    }
  }

  lemma MissedForGood(c: seq<Block>, more: seq<Block>, slot: int)
    requires ValidChain(c + more) && TrulyMissed(c, slot)
    ensures TrulyMissed(c + more, slot)
  {
    var all := c + more;
    var b :| b in c && b.slot > slot;
    var i :| 0 <= i < |c| && c[i] == b;
    assert all[i] == b;
    forall x | x in more
      ensures x.slot > slot
    {
      var j :| 0 <= j < |more| && more[j] == x;
      assert all[i].slot < all[|c| + j].slot;
    }
  }
}
