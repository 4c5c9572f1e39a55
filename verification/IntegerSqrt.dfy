/** Newton's integer square root. */
module IntegerSqrt {

  /** `y` is the largest integer whose square does not exceed `n`. */
  predicate IsSqrt(n: nat, y: nat) {
    y * y <= n < (y + 1) * (y + 1)
  }

  /** The integer square root by its definition, counting up. */
  ghost function Sqrt(n: nat): (y: nat)
    ensures IsSqrt(n, y)
  {
    if n == 0 then 0
    else
      var r := Sqrt(n - 1);
      if (r + 1) * (r + 1) <= n then r + 1 else r
  }

  lemma SquareMonotone(a: nat, b: nat)
    requires a <= b
    ensures a * a <= b * b
  {
    assert a * a <= a * b <= b * b;
  }

  lemma RootsOrdered(a: nat, b: nat)
    requires a * a < (b + 1) * (b + 1)
    ensures a <= b
  {
    var d, s := a - (b + 1), a + (b + 1);
    assert d * s == a * a - (b + 1) * (b + 1);
    assert d >= 0 ==> d * s >= 0;
  }

  lemma SqrtUnique(n: nat, y: nat)
    requires IsSqrt(n, y)
    ensures y == Sqrt(n)
  {
    RootsOrdered(y, Sqrt(n));
    RootsOrdered(Sqrt(n), y);
  }

  lemma SqrtMonotone(a: nat, b: nat)
    requires a <= b
    ensures Sqrt(a) <= Sqrt(b)
  {
    RootsOrdered(Sqrt(a), Sqrt(b));
  }

  /** A Newton step never falls below the root: the mean of `y` and `n / y` is at least the geometric one. */
  lemma NewtonStepAbove(n: nat, y: nat, z: nat)
    requires y > 0 && z == (n / y + y) / 2
    ensures n < (z + 1) * (z + 1)
  {
    QuotientBound(n, y);
    MeanAbove(n, y, n / y + 1, z + 1);
  }

  lemma QuotientBound(n: nat, y: nat)
    requires y > 0
    ensures 0 <= n / y && n < y * (n / y + 1)
  {
    var q := n / y;
    assert n == y * q + n % y;
    assert y * (q + 1) == y * q + y;
  }

  lemma MeanAbove(n: int, a: int, b: int, half: int)
    requires a >= 0 && b >= 0 && n < a * b && a + b <= 2 * half
    ensures n < half * half
  {
    MeanSquare(a, b);
    SquareMonotone(a + b, 2 * half);
    assert (2 * half) * (2 * half) == 4 * (half * half);
  }

  lemma MeanSquare(a: nat, b: nat)
    ensures 4 * (a * b) <= (b + a) * (b + a)
  {
    var d: int := b - a;
    assert d * d >= 0;
    assert d * d == b * b - 2 * (a * b) + a * a;
    assert (b + a) * (b + a) == b * b + 2 * (a * b) + a * a;
  }

  /** When the next step would not decrease, the root is reached. */
  lemma NewtonStopBelow(n: nat, y: nat)
    requires y > 0 && (n / y + y) / 2 >= y
    ensures y * y <= n
  {
    var q := n / y;
    assert q >= y;
    assert n == y * q + n % y;
    assert y * q >= y * y;
  }

  method BigNumberSqrt(value: nat) returns (y: nat)
    ensures IsSqrt(value, y)
  {
    var x := value;
    var z: nat := (x + 1) / 2;
    y := x;
    assert x > 0 ==> x / x == 1;
    assert x < (x + 1) * (x + 1);
    while z < y
      invariant x > 0 ==> y > 0 && z == (x / y + y) / 2
      invariant x == 0 ==> y == 0
      invariant x < (y + 1) * (y + 1)
      decreases y
    {
      NewtonStepAbove(x, y, z);
      y := z;
      assert z == 0 ==> x < 1;
      z := (x / z + z) / 2;
    }
    if x > 0 {
      NewtonStopBelow(x, y);
    }
  }
}
