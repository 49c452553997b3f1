/** The program's rounding-up division, with its behaviour on quotients below one. */
module CeilDiv {
  import opened Checked
  import opened Arith

  /** The ceiling of n / d. */
  function Ceil(n: nat, d: nat): (q: nat)
    requires d > 0
    ensures n <= q * d < n + d
  {
    DivBounds(n + d - 1, d);
    (n + d - 1) / d
  }

  /** The ceiling is the only multiple count that covers n with less than one d
      to spare. */
  lemma CeilUnique(n: nat, d: nat, q: nat)
    requires d > 0 && n <= q * d < n + d
    ensures q == Ceil(n, d)
  {
    var c := Ceil(n, d);
    if q < c {
      MulMono(q + 1, c, d);
      Distribute(q, 1, d);
    } else if c < q {
      MulMono(c + 1, q, d);
      Distribute(c, 1, d);
    }
  }

  /** Rounding up by looking at the remainder. */
  lemma CeilByRemainder(n: nat, d: nat)
    requires d > 0
    ensures Ceil(n, d) == if n % d > 0 then n / d + 1 else n / d
  {
    DivBounds(n, d);
    Distribute(n / d, 1, d);
    CeilUnique(n, d, if n % d > 0 then n / d + 1 else n / d);
  }

  lemma CeilLeast(n: nat, d: nat, c: nat)
    requires d > 0 && n <= c * d
    ensures Ceil(n, d) <= c
  {
    var q := Ceil(n, d);
    if c < q {
      MulMono(c + 1, q, d);
      Distribute(c, 1, d);
    }
  }

  lemma CeilMono(n: nat, m: nat, d: nat)
    requires d > 0 && n <= m
    ensures Ceil(n, d) <= Ceil(m, d)
  {
    CeilLeast(n, d, Ceil(m, d));
  }

  /** Quotient and refitted divisor of 128-bit operands.
      A quotient below one is not rounded up but to the nearest integer, and the
      divisor is then reported as zero. */
  function CheckedCeilDiv(n: nat, d: nat): Result<(nat, nat)> {
    if d == 0 then Failure(DivisionByZero)
    else if n / d == 0 then
      if 2 * n >= U128_LIMIT then Failure(Overflow)
      else if 2 * n >= d then Success((1, 0)) else Success((0, 0))
    else if n % d > 0 then
      var q := n / d + 1;
      var r := n / q;
      Success((q, if n % q > 0 then r + 1 else r))
    else Success((n / d, d))
  }

  /** Every nonzero quotient is the exact ceiling, no quotient exceeds it, and the
      quotient is zero exactly on dividends below half the divisor. */
  lemma QuotientIsCeiling(n: nat, d: nat)
    requires CheckedCeilDiv(n, d).Success?
    ensures d > 0
    ensures var q := CheckedCeilDiv(n, d).value.0;
      && (q != 0 ==> q == Ceil(n, d))
      && q <= Ceil(n, d)
      && (q == 0 <==> 2 * n < d)
  {
    CeilByRemainder(n, d);
    DivBounds(n, d);
    if n / d >= 1 {
      MulMono(1, n / d, d);
    }
  }

  /** q is n over d as the program rounds up: zero below one half, and otherwise the least
      that covers n. */
  predicate IsRoundedUp(q: nat, n: nat, d: nat) {
    (q == 0 <==> 2 * n < d) && (q != 0 ==> n <= q * d < n + d)
  }

  lemma RoundedUpIs(n: nat, d: nat)
    requires CheckedCeilDiv(n, d).Success?
    ensures IsRoundedUp(CheckedCeilDiv(n, d).value.0, n, d)
  {
    QuotientIsCeiling(n, d);
  }

  lemma RoundedUpUnique(p: nat, q: nat, n: nat, d: nat)
    requires d > 0 && IsRoundedUp(p, n, d) && IsRoundedUp(q, n, d)
    ensures p == q
  {
    if p != 0 {
      CeilUnique(n, d, p);
      CeilUnique(n, d, q);
    }
  }

  /** The divisor returned beside a quotient q >= 1 that covers n is ceil(n / q). */
  lemma DivisorIsRefitted(n: nat, d: nat)
    requires 0 < d <= n
    requires CheckedCeilDiv(n, d).Success?
    ensures var (q, r) := CheckedCeilDiv(n, d).value;
      0 < q && q == Ceil(n, d) && r == Ceil(n, q)
  {
    DivAtLeast(n, d, 1);
    CeilByRemainder(n, d);
    var (q, r) := CheckedCeilDiv(n, d).value;
    if n % d > 0 {
      CeilByRemainder(n, q);
    } else {
      DivBounds(n, d);
      assert n == d * q;
      CeilUnique(n, q, d);
    }
  }

  /** When at least one whole divisor fits, the returned divisor is the least one
      giving the same rounded-up quotient, and it never exceeds the one passed in. */
  lemma DivisorIsLeast(n: nat, d: nat)
    requires 0 < d <= n
    requires CheckedCeilDiv(n, d).Success?
    ensures var (q, r) := CheckedCeilDiv(n, d).value;
      && 0 < r <= d
      && Ceil(n, r) == q
      && forall c: nat :: 0 < c && Ceil(n, c) == q ==> r <= c
  {
    DivisorIsRefitted(n, d);
    var (q, r) := CheckedCeilDiv(n, d).value;
    RefittedSameQuotient(n, d);
    forall c: nat | 0 < c && Ceil(n, c) == q ensures r <= c {
      assert n <= c * q by {
        assert Ceil(n, c) * c == c * q;
      }
      CeilLeast(n, q, c);
    }
  }

  lemma RefittedSameQuotient(n: nat, d: nat)
    requires 0 < d && 0 < n
    ensures var q := Ceil(n, d); q > 0 && 0 < Ceil(n, q) <= d && Ceil(n, Ceil(n, q)) == q
  {
    var q := Ceil(n, d);
    var r := Ceil(n, q);
    assert n <= d * q;
    CeilLeast(n, q, d);
    assert n <= q * r;
    assert q * r < n + r by {
      // (q - 1) * r <= (q - 1) * d < n
      MulMono(r, d, q - 1);
      Distribute(q, 1, r);
      Distribute(q, 1, d);
      assert r * (q - 1) == (q - 1) * r && d * (q - 1) == (q - 1) * d;
    }
    CeilUnique(n, r, q);
  }
}
