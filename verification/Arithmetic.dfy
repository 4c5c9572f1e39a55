/** Division and comparison of products, for the reward formulas. */
module Arithmetic {

  lemma Division(x: int, d: int)
    requires x >= 0 && d > 0
    ensures d * (x / d) <= x < d * (x / d) + d && x / d >= 0
  {
    var q := x / d;
    assert x == d * q + x % d;
    assert q < 0 ==> d * q <= -d;
  }

  lemma LessByProducts(k: int, a: int, b: int)
    requires k > 0 && k * a < k * b
    ensures a < b
  {
    assert a >= b ==> k * a >= k * b;
  }
}
