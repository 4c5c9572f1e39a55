/** Finite sums over sequences and over sets, the latter independent of the order of summation. */
module Sums {

  ghost function SumSeq<T>(s: seq<T>, f: T -> int): int {
    if s == [] then 0 else SumSeq(s[..|s| - 1], f) + f(s[|s| - 1])
  }

  lemma SumSeqSnoc<T>(s: seq<T>, x: T, f: T -> int)
    ensures SumSeq(s + [x], f) == SumSeq(s, f) + f(x)
  {
    assert (s + [x])[..|s|] == s;
  }

  /** One more element of a longer list. */
  lemma SumSeqTake<T>(s: seq<T>, i: nat, f: T -> int)
    requires i < |s|
    ensures SumSeq(s[..i + 1], f) == SumSeq(s[..i], f) + f(s[i])
  {
    assert s[..i + 1] == s[..i] + [s[i]];
    SumSeqSnoc(s[..i], s[i], f);
  }

  ghost function SumSet<T>(s: set<T>, f: T -> int): int {
    if s == {} then 0
    else
      var x :| x in s;
      f(x) + SumSet(s - {x}, f)
  }

  /** Any element may be taken out first. */
  lemma {:induction false} SumSetTake<T>(s: set<T>, x: T, f: T -> int)
    requires x in s
    ensures SumSet(s, f) == f(x) + SumSet(s - {x}, f)
    decreases |s|
  {
    var y :| y in s && SumSet(s, f) == f(y) + SumSet(s - {y}, f);
    if y != x {
      SumSetTake(s - {y}, x, f);
      SumSetTake(s - {x}, y, f);
      assert s - {y} - {x} == s - {x} - {y};
    }
  }

  lemma SumSetAdd<T>(s: set<T>, x: T, f: T -> int)
    requires x !in s
    ensures SumSet(s + {x}, f) == SumSet(s, f) + f(x)
  {
    SumSetTake(s + {x}, x, f);
    assert s + {x} - {x} == s;
  }

  lemma {:induction false} SumSetCongruent<T>(s: set<T>, f: T -> int, g: T -> int)
    requires forall x :: x in s ==> f(x) == g(x)
    ensures SumSet(s, f) == SumSet(s, g)
    decreases |s|
  {
    if s != {} {
      var x :| x in s && SumSet(s, f) == f(x) + SumSet(s - {x}, f);
      SumSetTake(s, x, g);
      SumSetCongruent(s - {x}, f, g);
    }
  }

  /** Changing the summand at one element changes the sum by the same amount. */
  lemma SumSetUpdate<T>(s: set<T>, x: T, f: T -> int, g: T -> int)
    requires x in s
    requires forall y :: y in s && y != x ==> f(y) == g(y)
    ensures SumSet(s, g) == SumSet(s, f) + g(x) - f(x)
  {
    SumSetTake(s, x, f);
    SumSetTake(s, x, g);
    SumSetCongruent(s - {x}, f, g);
  }

  lemma {:induction false} SumSetZero<T>(s: set<T>, f: T -> int)
    requires forall x :: x in s ==> f(x) == 0
    ensures SumSet(s, f) == 0
    decreases |s|
  {
    if s != {} {
      var x :| x in s && SumSet(s, f) == f(x) + SumSet(s - {x}, f);
      SumSetZero(s - {x}, f);
    }
  }

  lemma {:induction false} SumSetMono<T>(s: set<T>, f: T -> int, g: T -> int)
    requires forall x :: x in s ==> f(x) <= g(x)
    ensures SumSet(s, f) <= SumSet(s, g)
    decreases |s|
  {
    if s != {} {
      var x :| x in s && SumSet(s, f) == f(x) + SumSet(s - {x}, f);
      SumSetTake(s, x, g);
      SumSetMono(s - {x}, f, g);
    }
  }

  lemma {:induction false} SumSetScale<T>(s: set<T>, f: T -> int, k: int, g: T -> int)
    requires forall x :: x in s ==> g(x) == k * f(x)
    ensures SumSet(s, g) == k * SumSet(s, f)
    decreases |s|
  {
    if s != {} {
      var x :| x in s && SumSet(s, f) == f(x) + SumSet(s - {x}, f);
      SumSetTake(s, x, g);
      SumSetScale(s - {x}, f, k, g);
      assert k * (f(x) + SumSet(s - {x}, f)) == k * f(x) + k * SumSet(s - {x}, f);
    }
  }

  /** Elements that add nothing may be left out. */
  lemma {:induction false} SumSetSupport<T>(s: set<T>, all: set<T>, f: T -> int)
    requires s <= all
    requires forall x :: x in all && x !in s ==> f(x) == 0
    ensures SumSet(all, f) == SumSet(s, f)
    decreases |all - s|
  {
    if all == s {
    } else {
      var x :| x in all && x !in s;
      SumSetTake(all, x, f);
      SumSetSupport(s, all - {x}, f);
    }
  }

  /** A sum is at most that of a larger summand over the elements where it may be positive. */
  lemma {:induction false} SumSetWithin<T>(s: set<T>, t: set<T>, f: T -> int, g: T -> int)
    requires forall x :: x in s ==> f(x) <= if x in t then g(x) else 0
    requires forall x :: x in t ==> g(x) >= 0
    ensures SumSet(s, f) <= SumSet(t, g)
    decreases |s|
  {
    if s == {} {
      SumSetZero(t, x => 0);
      SumSetMono(t, x => 0, g);
    } else {
      var x :| x in s && SumSet(s, f) == f(x) + SumSet(s - {x}, f);
      if x in t {
        SumSetTake(t, x, g);
        SumSetWithin(s - {x}, t - {x}, f, g);
      } else {
        SumSetWithin(s - {x}, t, f, g);
      }
    }
  }

  /** The sum of a pointwise sum. */
  lemma {:induction false} SumSetPlus<T>(s: set<T>, f: T -> int, g: T -> int, h: T -> int)
    requires forall x :: x in s ==> h(x) == f(x) + g(x)
    ensures SumSet(s, h) == SumSet(s, f) + SumSet(s, g)
    decreases |s|
  {
    if s != {} {
      var x :| x in s && SumSet(s, h) == h(x) + SumSet(s - {x}, h);
      SumSetTake(s, x, f);
      SumSetTake(s, x, g);
      SumSetPlus(s - {x}, f, g, h);
    }
  }

  lemma OneMore(n: int, k: int)
    ensures (n + 1) * k == n * k + k
  {
  }

  /** Summing along a list is summing over its elements weighted by how often they occur. */
  lemma {:induction false} SumSeqByElement(s: seq<int>, all: set<int>, f: int -> int, g: int -> int)
    requires forall x :: x in s ==> x in all
    requires forall x :: x in all ==> g(x) == multiset(s)[x] * f(x)
    ensures SumSeq(s, f) == SumSet(all, g)
  {
    if s == [] {
      forall x | x in all
        ensures g(x) == 0
      {
      }
      SumSetZero(all, g);
    } else {
      var init, last := s[..|s| - 1], s[|s| - 1];
      assert SumSeq(s, f) == SumSeq(init, f) + f(last);
      LastOccurrence(s, all, f, g);
      hide SumSet, SumSeq;
      SumSeqByElement(init, all, f, Weighted(init, f));
      hide Weighted;
      forall x | x in all && x != last
        ensures Weighted(init, f)(x) == g(x)
      {
      }
      SumSetUpdate(all, last, Weighted(init, f), g);
    }
  }

  function Weighted(s: seq<int>, f: int -> int): int -> int {
    x => multiset(s)[x] * f(x)
  }

  lemma LastOccurrence(s: seq<int>, all: set<int>, f: int -> int, g: int -> int)
    requires s != [] && forall x :: x in all ==> g(x) == multiset(s)[x] * f(x)
    requires s[|s| - 1] in all
    ensures var h, last := Weighted(s[..|s| - 1], f), s[|s| - 1];
      g(last) == h(last) + f(last) && forall x :: x in all && x != last ==> g(x) == h(x)
  {
    var init, last := s[..|s| - 1], s[|s| - 1];
    assert s == init + [last];
    OneMore(multiset(init)[last], f(last));
  }
}
