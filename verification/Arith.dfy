/** Facts about products, floors and integer square roots that the pool's proofs
    are built from. */
module Arith {

  lemma MulMono(a: int, b: int, c: nat)
    requires a <= b
    ensures a * c <= b * c
    ensures c * a <= c * b
  {
  }

  lemma MulMono2(a: nat, b: nat, c: nat, d: nat)
    requires a <= c && b <= d
    ensures a * b <= c * d
  {
    MulMono(a, c, b);
    MulMono(b, d, c);
  }

  lemma Distribute(a: int, b: int, c: int)
    ensures (a + b) * c == a * c + b * c
    ensures (a - b) * c == a * c - b * c
  {
  }

  /** A floor: the quotient times the divisor, short of the dividend by less than
      the divisor. */
  lemma DivBounds(a: nat, b: nat)
    requires b > 0
    ensures (a / b) * b <= a < (a / b) * b + b
    ensures a == (a / b) * b + a % b
  {
  }

  /** The three ways a floor is compared with an integer. */
  lemma DivAtLeast(a: nat, b: nat, c: nat)
    requires b > 0 && c * b <= a
    ensures c <= a / b
  {
    DivBounds(a, b);
    if a / b < c {
      MulMono(a / b + 1, c, b);
    }
  }

  lemma DivAtMost(a: nat, b: nat, c: nat)
    requires b > 0 && a <= c * b
    ensures a / b <= c
  {
    DivBounds(a, b);
    if c < a / b {
      MulMono(c + 1, a / b, b);
    }
  }

  lemma DivBelow(a: nat, b: nat, c: nat)
    requires b > 0 && a < c * b
    ensures a / b < c
  {
    DivBounds(a, b);
    if c <= a / b {
      MulMono(c, a / b, b);
    }
  }

  lemma DivMono(a: nat, c: nat, b: nat)
    requires b > 0 && a <= c
    ensures a / b <= c / b
  {
    DivBounds(a, b);
    DivAtLeast(c, b, a / b);
  }

  lemma DivExact(q: nat, b: nat)
    requires b > 0
    ensures (q * b) / b == q
  {
    DivAtLeast(q * b, b, q);
    DivAtMost(q * b, b, q);
  }

  /** q is n over d, rounded down. */
  predicate IsFloor(q: nat, n: nat, d: nat) {
    q * d <= n < (q + 1) * d
  }

  lemma FloorIs(n: nat, d: nat)
    requires d > 0
    ensures IsFloor(n / d, n, d)
  {
    DivBounds(n, d);
    Distribute(n / d, 1, d);
  }

  lemma FloorUnique(p: nat, q: nat, n: nat, d: nat)
    requires IsFloor(p, n, d) && IsFloor(q, n, d)
    ensures p == q
  {
    if p < q {
      MulMono(p + 1, q, d);
    } else if q < p {
      MulMono(q + 1, p, d);
    }
  }

  /** Cancelling a positive factor. */
  lemma MulCancelLe(a: int, b: int, c: nat)
    requires c > 0 && a * c <= b * c
    ensures a <= b
  {
    if b + 1 <= a {
      MulMono(b + 1, a, c);
      Distribute(b, 1, c);
    }
  }

  lemma MulCancelLt(a: int, b: int, c: nat)
    requires a * c < b * c
    ensures a < b
  {
    if b <= a {
      MulMono(b, a, c);
    }
  }

  lemma SquareOrder(a: nat, b: nat)
    requires a * a <= b * b
    ensures a <= b
  {
    if b < a {
      MulMono2(b + 1, b + 1, a, a);
    }
  }

  lemma SwapFactors(a: int, b: int, c: int)
    ensures (a * b) * c == (a * c) * b
  {
  }

  lemma Regroup(a: int, b: int, c: int, d: int)
    ensures (a * c) * (b * d) == (a * b) * (c * d)
  {
  }

  function Pow10(n: nat): (p: nat)
    ensures p > 0
  {
    if n == 0 then 1 else 10 * Pow10(n - 1)
  }

  lemma {:induction false} Pow10Add(a: nat, b: nat)
    ensures Pow10(a + b) == Pow10(a) * Pow10(b)
  {
    if a > 0 {
      Pow10Add(a - 1, b);
      assert Pow10(a + b) == 10 * Pow10(a - 1 + b);
    }
  }

  ghost predicate IsSqrt(r: nat, n: nat) {
    r * r <= n < (r + 1) * (r + 1)
  }

  /** The floor square root, as a specification. */
  function Sqrt(n: nat): (r: nat)
    ensures IsSqrt(r, n)
  {
    if n == 0 then 0
    else
      var r := Sqrt(n - 1);
      if (r + 1) * (r + 1) <= n then r + 1 else r
  }

  lemma SqrtUnique(r: nat, n: nat)
    requires IsSqrt(r, n)
    ensures r == Sqrt(n)
  {
    var s := Sqrt(n);
    if r < s {
      MulMono2(r + 1, r + 1, s, s);
    } else if s < r {
      MulMono2(s + 1, s + 1, r, r);
    }
  }

  lemma ArithmeticGeometric(a: nat, b: nat)
    ensures 4 * (a * b) <= (a + b) * (a + b)
  {
    assert (a + b) * (a + b) - 4 * (a * b) == (a - b) * (a - b);
  }

  /** One step of Newton's iteration never falls below the root. */
  lemma NewtonStaysAbove(n: nat, x: nat)
    requires x > 0
    ensures var m := (x + n / x) / 2; n < (m + 1) * (m + 1)
  {
    var q := n / x;
    var m := (x + q) / 2;
    DivBounds(n, x);
    Distribute(q, 1, x);
    assert n < (q + 1) * x;
    ArithmeticGeometric(q + 1, x);
    var h := m + 1;
    assert q + 1 + x <= 2 * h;
    MulMono2(q + 1 + x, q + 1 + x, 2 * h, 2 * h);
    assert (2 * h) * (2 * h) == 4 * (h * h);
  }

  /** Square root by Newton's iteration from a power of two above the root. */
  method IntegerSqrt(n: nat) returns (r: nat)
    ensures IsSqrt(r, n)
    ensures r == Sqrt(n)
  {
    hide Sqrt;
    if n <= 1 {
      SqrtUnique(n, n);
      return n;
    }
    var x := 1;
    while x * x <= n
      invariant 1 <= x
      decreases n + 1 - x
    {
      MulMono(1, x, x);
      x := 2 * x;
    }
    MulMono2(x, x, x + 1, x + 1);
    while true
      invariant 1 <= x
      invariant n < (x + 1) * (x + 1)
      decreases x
    {
      var m := (x + n / x) / 2;
      NewtonStaysAbove(n, x);
      if m >= x {
        NewtonStops(n, x);
        return x;
      }
      assert m != 0;
      x := m;
    }
  }

  /** Where a step no longer falls, the root is reached. */
  lemma NewtonStops(n: nat, x: nat)
    requires x > 0 && x <= (x + n / x) / 2 && n < (x + 1) * (x + 1)
    ensures IsSqrt(x, n) && x == Sqrt(n)
  {
    DivBounds(n, x);
    MulMono(x, n / x, x);
    SqrtUnique(x, n);
  }
}
