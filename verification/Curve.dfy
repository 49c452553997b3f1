/** Constant-product quotes, before and after the swap fee. */
module Curve {
  import opened Checked
  import opened Arith
  import opened CeilDiv

  datatype Direction = PC2Coin | Coin2PC {
    function InSide(pc: nat, coin: nat): nat {
      if PC2Coin? then pc else coin
    }

    function OutSide(pc: nat, coin: nat): nat {
      if PC2Coin? then coin else pc
    }
  }

  /** What a pool holding rIn and rOut pays for amountIn, rounded down. */
  function SwapBaseIn(amountIn: nat, rIn: nat, rOut: nat): Result<nat> {
    var denominator :- ToU128(rIn + amountIn);
    var numerator :- ToU128(rOut * amountIn);
    Div(numerator, denominator)
  }

  /** What a pool holding rIn and rOut asks for amountOut, rounded up. */
  function SwapBaseOut(amountOut: nat, rIn: nat, rOut: nat): Result<nat> {
    var denominator :- Sub(rOut, amountOut);
    var numerator :- ToU128(rIn * amountOut);
    var (amountIn, _) :- CheckedCeilDiv(numerator, denominator);
    Success(amountIn)
  }

  datatype SwapFee = SwapFee(numerator: u64, denominator: u64) {
    predicate Valid() {
      numerator < denominator
    }
  }

  /** Base-in with the fee kept back from the input: the payout and the fee. */
  function BaseInWithFee(amountIn: u64, rIn: u64, rOut: u64, f: SwapFee): Result<(u64, u64)> {
    var scaled :- ToU128(amountIn * f.numerator);
    var (fee, _) :- CheckedCeilDiv(scaled, f.denominator);
    var afterFee :- Sub(amountIn, fee);
    var out :- SwapBaseIn(afterFee, rIn, rOut);
    var out64 :- ToU64(out);
    var fee64 :- ToU64(fee);
    Success((out64, fee64))
  }

  /** Base-out with the fee added to the input: the charge and the fee. */
  function BaseOutWithFee(amountOut: u64, rIn: u64, rOut: u64, f: SwapFee): Result<(u64, u64)> {
    var beforeFee :- SwapBaseOut(amountOut, rIn, rOut);
    var scaled :- ToU128(beforeFee * f.denominator);
    var keep :- Sub(f.denominator, f.numerator);
    var (charged, _) :- CheckedCeilDiv(scaled, keep);
    var charged64 :- ToU64(charged);
    var before64 :- ToU64(beforeFee);
    var fee :- Sub(charged64, before64);
    Success((charged64, fee))
  }

  // ---- The curve without fees ----

  /** The input's whole worth stays in the pool: the payout is bounded so that the
      product of reserves cannot fall, and one more unit out would make it fall. */
  lemma BaseInIsLargestSafePayout(a: nat, rIn: nat, rOut: nat)
    requires SwapBaseIn(a, rIn, rOut).Success?
    ensures var out := SwapBaseIn(a, rIn, rOut).value;
      && out <= rOut
      && rIn * rOut <= (rIn + a) * (rOut - out)
      && (rIn + a) * (rOut - (out + 1)) < rIn * rOut
  {
    var out := SwapBaseIn(a, rIn, rOut).value;
    var s := rIn + a;
    DivBounds(rOut * a, s);
    assert out * s <= rOut * a < out * s + s;
    assert s * (rOut - out) == s * rOut - out * s;
    assert s * (rOut - (out + 1)) == s * rOut - out * s - s;
    Distribute(rIn, a, rOut);
    if out > rOut {
      MulMono(rOut + 1, out, s);
      Distribute(rOut, 1, s);
      MulMono(a, s, rOut);
    }
  }

  /** Which inputs buy a target: exactly those at or above the ceiling. */
  lemma BaseInReaches(a: nat, rIn: nat, rOut: nat, target: nat)
    requires SwapBaseIn(a, rIn, rOut).Success? && 0 < target < rOut
    ensures SwapBaseIn(a, rIn, rOut).value >= target <==> Ceil(rIn * target, rOut - target) <= a
  {
    var s := rIn + a;
    var c := Ceil(rIn * target, rOut - target);
    assert target * s == target * rIn + target * a by { Distribute(rIn, a, target); }
    assert a * (rOut - target) == rOut * a - target * a;
    assert target * s <= rOut * a <==> rIn * target <= a * (rOut - target);
    if target * s <= rOut * a {
      DivAtLeast(rOut * a, s, target);
      CeilLeast(rIn * target, rOut - target, a);
    } else {
      DivBelow(rOut * a, s, target);
      if c <= a {
        MulMono(c, a, rOut - target);
      }
    }
  }

  /** A nonzero base-out quote is the least input whose base-in payout reaches the
      target; the quote is zero exactly when less than half a unit is owed. */
  lemma BaseOutIsLeastInput(target: nat, rIn: nat, rOut: nat)
    requires SwapBaseOut(target, rIn, rOut).Success? && 0 < target
    ensures target < rOut
    ensures var q := SwapBaseOut(target, rIn, rOut).value;
      && (q == 0 <==> 2 * (rIn * target) < rOut - target)
      && (q != 0 ==> forall a: nat :: SwapBaseIn(a, rIn, rOut).Success? ==>
            (SwapBaseIn(a, rIn, rOut).value >= target <==> q <= a))
  {
    QuotientIsCeiling(rIn * target, rOut - target);
    var q := SwapBaseOut(target, rIn, rOut).value;
    if q != 0 {
      forall a: nat | SwapBaseIn(a, rIn, rOut).Success?
        ensures SwapBaseIn(a, rIn, rOut).value >= target <==> q <= a
      {
        BaseInReaches(a, rIn, rOut, target);
      }
    }
  }

  /** Feeding a list of inputs one after another through fee-free base-in swaps. */
  function SplitPayout(inputs: seq<nat>, rIn: nat, rOut: nat): Result<nat> {
    if inputs == [] then Success(0)
    else
      var first :- SwapBaseIn(inputs[0], rIn, rOut);
      var left :- Sub(rOut, first);
      var others :- SplitPayout(inputs[1..], rIn + inputs[0], left);
      Success(first + others)
  }

  function Sum(inputs: seq<nat>): nat {
    if inputs == [] then 0 else inputs[0] + Sum(inputs[1..])
  }

  lemma {:induction false} SplitKeepsProduct(inputs: seq<nat>, rIn: nat, rOut: nat)
    requires SplitPayout(inputs, rIn, rOut).Success?
    ensures var out := SplitPayout(inputs, rIn, rOut).value;
      out <= rOut && rIn * rOut <= (rIn + Sum(inputs)) * (rOut - out)
  {
    if inputs != [] {
      var first := SwapBaseIn(inputs[0], rIn, rOut).value;
      BaseInIsLargestSafePayout(inputs[0], rIn, rOut);
      SplitKeepsProduct(inputs[1..], rIn + inputs[0], rOut - first);
    }
  }

  /** Splitting one input into several never pays out more in total. */
  lemma SplittingNeverPaysMore(inputs: seq<nat>, rIn: nat, rOut: nat)
    requires SplitPayout(inputs, rIn, rOut).Success?
    requires SwapBaseIn(Sum(inputs), rIn, rOut).Success?
    ensures SplitPayout(inputs, rIn, rOut).value <= SwapBaseIn(Sum(inputs), rIn, rOut).value
  {
    SplitKeepsProduct(inputs, rIn, rOut);
    BaseInIsLargestSafePayout(Sum(inputs), rIn, rOut);
    var split := SplitPayout(inputs, rIn, rOut).value;
    var whole := SwapBaseIn(Sum(inputs), rIn, rOut).value;
    var s := rIn + Sum(inputs);
    if split > whole {
      MulMono(rOut - split, rOut - (whole + 1), s);
    }
  }

  // ---- The curve with fees ----

  lemma BaseInKeepsProduct(amountIn: u64, rIn: u64, rOut: u64, f: SwapFee)
    requires BaseInWithFee(amountIn, rIn, rOut, f).Success?
    ensures var (out, fee) := BaseInWithFee(amountIn, rIn, rOut, f).value;
      && fee <= amountIn
      && out <= rOut
      && rIn * rOut <= (rIn + amountIn) * (rOut - out)
  {
    var (out, fee) := BaseInWithFee(amountIn, rIn, rOut, f).value;
    BaseInIsLargestSafePayout(amountIn - fee, rIn, rOut);
    MulMono(rIn + (amountIn - fee), rIn + amountIn, rOut - out);
  }

  lemma CoveringKeepsProduct(amountOut: nat, rIn: nat, rOut: nat, paid: nat)
    requires amountOut <= rOut && rIn * amountOut <= paid * (rOut - amountOut)
    ensures rIn * rOut <= (rIn + paid) * (rOut - amountOut)
  {
    Distribute(rIn, paid, rOut - amountOut);
    assert rIn * (rOut - amountOut) == rIn * rOut - rIn * amountOut;
  }

  /** The two roundings of a charged base-out swap. */
  lemma ChargeRoundings(amountOut: u64, rIn: u64, rOut: u64, f: SwapFee)
    requires BaseOutWithFee(amountOut, rIn, rOut, f).Success?
    requires BaseOutWithFee(amountOut, rIn, rOut, f).value.0 != 0
    ensures amountOut < rOut && f.numerator < f.denominator
    ensures var before := SwapBaseOut(amountOut, rIn, rOut).value;
      && 0 < before <= BaseOutWithFee(amountOut, rIn, rOut, f).value.0
      && before == Ceil(rIn * amountOut, rOut - amountOut)
      && BaseOutWithFee(amountOut, rIn, rOut, f).value.0
         == Ceil(before * f.denominator, f.denominator - f.numerator)
  {
    var before := SwapBaseOut(amountOut, rIn, rOut).value;
    QuotientIsCeiling(rIn * amountOut, rOut - amountOut);
    QuotientIsCeiling(before * f.denominator, f.denominator - f.numerator);
  }

  /** A charged (nonzero) base-out swap never lowers the product either. */
  lemma BaseOutKeepsProduct(amountOut: u64, rIn: u64, rOut: u64, f: SwapFee)
    requires BaseOutWithFee(amountOut, rIn, rOut, f).Success?
    requires BaseOutWithFee(amountOut, rIn, rOut, f).value.0 != 0
    ensures var charged := BaseOutWithFee(amountOut, rIn, rOut, f).value.0;
      && amountOut < rOut
      && rIn * rOut <= (rIn + charged) * (rOut - amountOut)
  {
    ChargeRoundings(amountOut, rIn, rOut, f);
    var charged := BaseOutWithFee(amountOut, rIn, rOut, f).value.0;
    var before := SwapBaseOut(amountOut, rIn, rOut).value;
    MulMono(before, charged, rOut - amountOut);
    CoveringKeepsProduct(amountOut, rIn, rOut, charged);
  }

  /** Undoing the fee: what remains of a grossed-up charge covers the net amount. */
  lemma FeeRoundTrip(before: nat, charged: nat, n: nat, d: nat)
    requires n < d
    requires charged == Ceil(before * d, d - n)
    ensures Ceil(charged * n, d) <= charged - before
    ensures before <= charged
  {
    assert before * d <= charged * (d - n);
    assert charged * (d - n) == charged * d - charged * n;
    assert (charged - before) * d == charged * d - before * d;
    MulMono(d - n, d, charged);
    assert charged * (d - n) == (d - n) * charged && charged * d == d * charged;
    MulCancelLe(before, charged, d);
    CeilLeast(charged * n, d, charged - before);
  }

  /** What exact-in charges and pays: the fee is the input's share rounded up, or nothing
      below half a unit, and the payout is what the curve gives the rest, rounded down. */
  predicate IsQuoteIn(amountIn: u64, rIn: u64, rOut: u64, f: SwapFee, out: nat, fee: nat) {
    && IsRoundedUp(fee, amountIn * f.numerator, f.denominator)
    && fee <= amountIn
    && IsFloor(out, rOut * (amountIn - fee), rIn + amountIn - fee)
  }

  /** On 64-bit operands base-in can only fail on an empty input side. */
  lemma BaseInFits(amountIn: u64, rIn: u64, rOut: u64, f: SwapFee)
    requires f.Valid() && 0 < rIn
    ensures BaseInWithFee(amountIn, rIn, rOut, f).Success?
    ensures var (out, fee) := BaseInWithFee(amountIn, rIn, rOut, f).value;
      && fee <= Ceil(amountIn * f.numerator, f.denominator) <= amountIn
      && out == SwapBaseIn(amountIn - fee, rIn, rOut).value
      && IsQuoteIn(amountIn, rIn, rOut, f, out, fee)
  {
    var n, d := f.numerator, f.denominator;
    ProductFits(amountIn, n);
    DoublingFits(amountIn, n, d);
    QuotientIsCeiling(amountIn * n, d);
    MulMono(n, d, amountIn);
    CeilLeast(amountIn * n, d, amountIn);
    var fee := CheckedCeilDiv(amountIn * n, d).value.0;
    ProductFits(rOut, amountIn - fee);
    BaseInIsLargestSafePayout(amountIn - fee, rIn, rOut);
    FloorIs(rOut * (amountIn - fee), rIn + (amountIn - fee));
  }

  lemma QuoteInUnique(
    amountIn: u64, rIn: u64, rOut: u64, f: SwapFee, out: nat, fee: nat, out': nat, fee': nat)
    requires f.Valid()
    requires IsQuoteIn(amountIn, rIn, rOut, f, out, fee) && IsQuoteIn(amountIn, rIn, rOut, f, out', fee')
    ensures out == out' && fee == fee'
  {
    RoundedUpUnique(fee, fee', amountIn * f.numerator, f.denominator);
    FloorUnique(out, out', rOut * (amountIn - fee), rIn + amountIn - fee);
  }

  /** What exact-out charges: the curve's price of the output, and that grossed up by the
      fee, each rounded up, or nothing below half a unit. */
  predicate IsQuoteOut(amountOut: u64, rIn: u64, rOut: u64, f: SwapFee, before: nat, charged: nat) {
    && amountOut < rOut && f.numerator < f.denominator
    && IsRoundedUp(before, rIn * amountOut, rOut - amountOut)
    && IsRoundedUp(charged, before * f.denominator, f.denominator - f.numerator)
  }

  /** On 64-bit operands exact-out fails exactly when it empties the output side or its
      charge leaves 64 bits. */
  lemma BaseOutFitsIff(amountOut: u64, rIn: u64, rOut: u64, f: SwapFee, before: nat, charged: nat)
    requires f.Valid() && IsQuoteOut(amountOut, rIn, rOut, f, before, charged)
    ensures BaseOutWithFee(amountOut, rIn, rOut, f) ==
      if charged < U64_LIMIT then Success((charged, charged - before)) else Failure(Overflow)
    ensures charged < U64_LIMIT ==> before <= charged
  {
    hide CheckedCeilDiv, IsRoundedUp, SwapBaseOut;
    var keep := f.denominator - f.numerator;
    QuoteBeforeFee(amountOut, rIn, rOut, before);
    GrossUpCovers(before, charged, f.denominator, keep);
    var scaled := before * f.denominator;
    if scaled < U128_LIMIT {
      RoundedUpFits(charged, scaled, keep);
    } else {
      WideGrossUp(before, charged, f.denominator, keep);
    }
  }

  lemma QuoteBeforeFee(amountOut: u64, rIn: u64, rOut: u64, before: nat)
    requires amountOut < rOut && IsRoundedUp(before, rIn * amountOut, rOut - amountOut)
    ensures SwapBaseOut(amountOut, rIn, rOut) == Success(before)
  {
    hide CheckedCeilDiv, IsRoundedUp;
    var n: nat, d: u64 := rIn * amountOut, rOut - amountOut;
    ProductFits(rIn, amountOut);
    RoundedUpFits(before, n, d);
  }

  lemma RoundedUpFits(q: nat, n: nat, d: u64)
    requires 0 < d && IsRoundedUp(q, n, d)
    ensures CheckedCeilDiv(n, d).Success? && CheckedCeilDiv(n, d).value.0 == q
  {
    if n / d == 0 {
      DivBounds(n, d);
    }
    RoundedUpIs(n, d);
    RoundedUpUnique(q, CheckedCeilDiv(n, d).value.0, n, d);
  }

  lemma GrossUpCovers(before: nat, charged: nat, d: nat, keep: nat)
    requires 0 < keep <= d && IsRoundedUp(charged, before * d, keep)
    ensures before <= charged
  {
    if before > 0 {
      MulMono(1, before, d);
      MulMono(keep, d, charged);
      MulCancelLe(before, charged, d);
    }
  }

  lemma WideGrossUp(before: nat, charged: nat, d: u64, keep: nat)
    requires 0 < keep <= d && IsRoundedUp(charged, before * d, keep) && U128_LIMIT <= before * d
    ensures U64_LIMIT <= charged
  {
    if charged < U64_LIMIT {
      MulMono2(charged, keep, U64_LIMIT - 1, U64_LIMIT - 1);
    }
  }

  /** Every quote that exact-out gives is that charge. */
  lemma BaseOutIsQuoted(amountOut: u64, rIn: u64, rOut: u64, f: SwapFee) returns (before: nat)
    requires f.Valid() && BaseOutWithFee(amountOut, rIn, rOut, f).Success?
    ensures var (charged, fee) := BaseOutWithFee(amountOut, rIn, rOut, f).value;
      && IsQuoteOut(amountOut, rIn, rOut, f, before, charged)
      && fee == charged - before
  {
    hide CheckedCeilDiv, IsRoundedUp;
    before := SwapBaseOut(amountOut, rIn, rOut).value;
    RoundedUpIs(rIn * amountOut, rOut - amountOut);
    RoundedUpIs(before * f.denominator, f.denominator - f.numerator);
  }

  lemma EmptyingFails(amountOut: u64, rIn: u64, rOut: u64, f: SwapFee)
    requires rOut <= amountOut
    ensures BaseOutWithFee(amountOut, rIn, rOut, f).Failure?
  {
  }

  /** Exact-out agrees with exact-in: the input a base-out swap charges, fed to
      base-in on the same pool, succeeds and pays at least what was asked for. */
  lemma ExactOutCoversExactIn(amountOut: u64, rIn: u64, rOut: u64, f: SwapFee)
    requires f.Valid() && 0 < amountOut
    requires BaseOutWithFee(amountOut, rIn, rOut, f).Success?
    requires BaseOutWithFee(amountOut, rIn, rOut, f).value.0 != 0
    ensures var charged := BaseOutWithFee(amountOut, rIn, rOut, f).value.0;
      && BaseInWithFee(charged, rIn, rOut, f).Success?
      && amountOut <= BaseInWithFee(charged, rIn, rOut, f).value.0 < rOut
  {
    var charged := BaseOutWithFee(amountOut, rIn, rOut, f).value.0;
    var before := SwapBaseOut(amountOut, rIn, rOut).value;
    ChargeRoundings(amountOut, rIn, rOut, f);
    if rIn == 0 {
      assert rIn * amountOut == 0;
      CeilUnique(0, rOut - amountOut, 0);
      assert false;
    }
    FeeRoundTrip(before, charged, f.numerator, f.denominator);
    BaseInFits(charged, rIn, rOut, f);
    var net := charged - BaseInWithFee(charged, rIn, rOut, f).value.1;
    BaseInReaches(net, rIn, rOut, amountOut);
    PayoutLeavesSomething(net, rIn, rOut);
  }

  /** While the input side is not empty, no payout takes the whole output side. */
  lemma PayoutLeavesSomething(a: nat, rIn: nat, rOut: nat)
    requires SwapBaseIn(a, rIn, rOut).Success? && 0 < rIn && 0 < rOut
    ensures SwapBaseIn(a, rIn, rOut).value < rOut
  {
    MulMono(rIn, rIn + a, rOut);
    Distribute(rIn, a, rOut);
    assert 0 < rIn * rOut;
    DivBelow(rOut * a, rIn + a, rOut);
  }

  lemma ProductFits(a: u64, b: u64)
    ensures a * b < U128_LIMIT
    ensures a * b <= (U64_LIMIT - 1) * (U64_LIMIT - 1)
  {
    MulMono2(a, b, U64_LIMIT - 1, U64_LIMIT - 1);
  }

  lemma DoublingFits(a: u64, b: u64, d: u64)
    requires d > 0
    ensures CheckedCeilDiv(a * b, d).Success?
  {
    ProductFits(a, b);
    if (a * b) / d == 0 {
      DivBounds(a * b, d);
      Distribute((a * b) / d, 1, d);
    }
  }
}
