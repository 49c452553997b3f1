/** Native token amounts, the pool's common decimal base, and how a pool's scale is
    derived from its market's lot sizes. */
module Decimals {
  import opened Checked
  import opened Arith

  function PowU128(decimals: nat): Result<u128> {
    ToU128(Pow10(decimals))
  }

  /** Native amount to the common base, rounded down. */
  function Normalize(v: u64, decimals: nat, sys: u64): Result<u128> {
    var scaled :- ToU128(v * sys);
    var unit :- PowU128(decimals);
    Success(Normalized(v, unit, sys))
  }

  /** Common base back to a native amount, rounded down. */
  function Restore(v: u128, decimals: nat, sys: u64): Result<u128> {
    var unit :- PowU128(decimals);
    var scaled :- ToU128(v * unit);
    Div(scaled, sys)
  }

  function Normalized(v: nat, unit: nat, sys: nat): nat
    requires unit > 0
  {
    (v * sys) / unit
  }

  function Restored(v: nat, unit: nat, sys: nat): nat
    requires sys > 0
  {
    (v * unit) / sys
  }

  /** An amount's reading in the common base, rounded down. */
  predicate IsReading(x: nat, v: nat, unit: nat, sys: nat) {
    IsFloor(x, v * sys, unit)
  }

  lemma ReadingIs(v: u64, decimals: u8, sys: u64)
    requires Normalize(v, decimals, sys).Success?
    ensures IsReading(Normalize(v, decimals, sys).value, v, Pow10(decimals), sys)
  {
    FloorIs(v * sys, Pow10(decimals));
  }

  /** The base is a whole multiple of the native unit. */
  predicate IntegerScale(unit: nat, sys: nat) {
    unit > 0 && sys > 0 && sys % unit == 0
  }

  /** A round trip through the common base loses at most one native unit. */
  lemma RoundTripLosesAtMostOne(v: nat, unit: nat, sys: nat)
    requires 0 < unit <= sys
    ensures v - 1 <= Restored(Normalized(v, unit, sys), unit, sys) <= v
  {
    var w := Normalized(v, unit, sys);
    DivBounds(v * sys, unit);
    DivAtMost(w * unit, sys, v);
    if v > 0 {
      assert (v - 1) * sys == v * sys - sys;
      DivAtLeast(w * unit, sys, v - 1);
    }
  }

  /** With an integer scale both conversions are one multiplication or division by
      it, and the round trip is exact. */
  lemma IntegerScaleIsExact(v: nat, unit: nat, sys: nat)
    requires IntegerScale(unit, sys)
    ensures sys / unit > 0
    ensures Normalized(v, unit, sys) == v * (sys / unit)
    ensures Restored(v, unit, sys) == v / (sys / unit)
    ensures Restored(Normalized(v, unit, sys), unit, sys) == v
  {
    var s := sys / unit;
    DivBounds(sys, unit);
    assert sys == s * unit;
    assert s > 0;
    NormalizedByScale(v, unit, s);
    RestoredByScale(v, unit, s);
    RestoredByScale(v * s, unit, s);
    DivExact(v, s);
  }

  lemma NormalizedByScale(v: nat, unit: nat, s: nat)
    requires unit > 0
    ensures Normalized(v, unit, s * unit) == v * s
  {
    assert v * (s * unit) == (v * s) * unit;
    DivExact(v * s, unit);
  }

  lemma RestoredByScale(v: nat, unit: nat, s: nat)
    requires unit > 0 && s > 0
    ensures s * unit > 0
    ensures Restored(v, unit, s * unit) == v / s
  {
    MulMono(1, s, unit);
    var q := v / s;
    DivBounds(v, s);
    assert (q * s) * unit == q * (s * unit);
    assert (q * s + s) * unit == (q + 1) * (s * unit);
    MulMono(q * s, v, unit);
    DivAtLeast(v * unit, s * unit, q);
    MulMono(v + 1, q * s + s, unit);
    Distribute(v, 1, unit);
    DivBelow(v * unit, s * unit, q + 1);
  }

  // ---- Deriving the scale ----

  /** What `initialize` records about a pool's decimals and its market's lots. */
  datatype Scale = Scale(
    coinDecimals: u8, pcDecimals: u8, sysDecimalValue: u64,
    minSize: u64, coinLotSize: u64, pcLotSize: u64)

  /** The base is at least as fine as either token's unit; `InitScale` always provides
      this. */
  predicate CoversUnits(s: Scale) {
    Pow10(s.pcDecimals) <= s.sysDecimalValue && Pow10(s.coinDecimals) <= s.sysDecimalValue
  }

  /** Both tokens' units divide the base. */
  predicate WholeScale(s: Scale) {
    && IntegerScale(Pow10(s.pcDecimals), s.sysDecimalValue)
    && IntegerScale(Pow10(s.coinDecimals), s.sysDecimalValue)
  }

  function MaxDecimals(coinDecimals: u8, pcDecimals: u8): u8 {
    if pcDecimals > coinDecimals then pcDecimals else coinDecimals
  }

  /** One coin lot over one pc lot, in the two sides' own decimals. */
  function LotRatio(coinDecimals: u8, pcDecimals: u8, coinLot: u64, pcLot: u64): Result<(nat, nat)> {
    var pcUnit :- PowU128(pcDecimals);
    var numerator :- ToU128(coinLot * pcUnit);
    var coinUnit :- PowU128(coinDecimals);
    var denominator :- ToU128(pcLot * coinUnit);
    Success((numerator, denominator))
  }

  function ConvertInPcLotSize(
    pcDecimals: u8, coinDecimals: u8, pcLot: u64, coinLot: u64, sys: u64): Result<u64>
  {
    var a :- ToU128(pcLot * sys);
    var coinUnit :- PowU128(coinDecimals);
    var numerator :- ToU128(a * coinUnit);
    var pcUnit :- PowU128(pcDecimals);
    var denominator :- ToU128(coinLot * pcUnit);
    var lot :- Div(numerator, denominator);
    ToU64(lot)
  }

  function InitScale(coinDecimals: u8, pcDecimals: u8, coinLot: u64, pcLot: u64): Result<Scale> {
    var base :- ToU64(Pow10(MaxDecimals(coinDecimals, pcDecimals)));
    var (numerator, denominator) :- LotRatio(coinDecimals, pcDecimals, coinLot, pcLot);
    var ratio :- Div(numerator, denominator);
    var sys :- ToU64(if base <= ratio then ratio else base);
    var lot :- Normalize(coinLot, coinDecimals, sys);
    var minSize: u64 := if lot < U64_LIMIT - 1 then lot else 0;
    // The amount wave, which nothing reads, must also fit before it is divided down.
    var _ :- ToU64(sys * 5);
    var pcLotSize :- ConvertInPcLotSize(pcDecimals, coinDecimals, pcLot, coinLot, sys);
    Success(Scale(coinDecimals, pcDecimals, sys, minSize, coinLot, pcLotSize))
  }

  /** The lots are so far apart that the ratio replaces the power of ten. */
  predicate Overridden(coinDecimals: u8, pcDecimals: u8, coinLot: u64, pcLot: u64)
    requires pcLot > 0
  {
    assert pcLot * Pow10(coinDecimals) > 0 by { MulMono(1, pcLot, Pow10(coinDecimals)); }
    Pow10(MaxDecimals(coinDecimals, pcDecimals))
    <= (coinLot * Pow10(pcDecimals)) / (pcLot * Pow10(coinDecimals))
  }

  lemma {:induction false} Pow10Mono(a: nat, b: nat)
    requires a <= b
    ensures Pow10(a) <= Pow10(b)
    ensures Pow10(b) % Pow10(a) == 0
  {
    Pow10Add(b - a, a);
    MulMono(1, Pow10(b - a), Pow10(a));
    ModOfMultiple(Pow10(b - a), Pow10(a));
  }

  lemma ModOfMultiple(q: nat, b: nat)
    requires b > 0
    ensures (q * b) % b == 0
  {
    DivBounds(q * b, b);
    DivExact(q, b);
  }

  /** Whatever the lots, the base covers both tokens' units, and the minimum order
      size is the normalised coin lot (or zero, which later stops the crank). */
  lemma InitScaleCoversUnits(coinDecimals: u8, pcDecimals: u8, coinLot: u64, pcLot: u64)
    requires InitScale(coinDecimals, pcDecimals, coinLot, pcLot).Success?
    ensures var s := InitScale(coinDecimals, pcDecimals, coinLot, pcLot).value;
      && Pow10(pcDecimals) <= s.sysDecimalValue
      && Pow10(coinDecimals) <= s.sysDecimalValue
      && (s.minSize != 0 ==> s.minSize == Normalized(coinLot, Pow10(coinDecimals), s.sysDecimalValue))
      && (s.minSize == 0 <==> (Normalized(coinLot, Pow10(coinDecimals), s.sysDecimalValue) == 0
                            || Normalized(coinLot, Pow10(coinDecimals), s.sysDecimalValue) >= U64_LIMIT - 1))
  {
    Pow10Mono(pcDecimals, MaxDecimals(coinDecimals, pcDecimals));
    Pow10Mono(coinDecimals, MaxDecimals(coinDecimals, pcDecimals));
  }

  lemma LotsAreSet(coinDecimals: u8, pcDecimals: u8, coinLot: u64, pcLot: u64)
    requires InitScale(coinDecimals, pcDecimals, coinLot, pcLot).Success?
    ensures 0 < coinLot && 0 < pcLot
  {
    assert 0 * Pow10(coinDecimals) == 0 && 0 * Pow10(pcDecimals) == 0;
  }

  /** The common base: the finer token's power of ten, or the lot ratio rounded down once
      that is no smaller. */
  predicate IsBase(sys: nat, coinDecimals: u8, pcDecimals: u8, coinLot: u64, pcLot: u64) {
    var base := Pow10(MaxDecimals(coinDecimals, pcDecimals));
    var numerator, denominator := coinLot * Pow10(pcDecimals), pcLot * Pow10(coinDecimals);
    && 0 < denominator
    && (numerator < base * denominator ==> sys == base)
    && (base * denominator <= numerator ==> IsFloor(sys, numerator, denominator))
  }

  /** Which markets give a scale, and which: the base as above, with room for five times
      itself, and a price tick of one pc lot for one coin lot in that base, rounded down. */
  lemma InitScaleIs(coinDecimals: u8, pcDecimals: u8, coinLot: u64, pcLot: u64, sys: nat)
    requires IsBase(sys, coinDecimals, pcDecimals, coinLot, pcLot)
    ensures var r := InitScale(coinDecimals, pcDecimals, coinLot, pcLot);
      var numerator, denominator := coinLot * Pow10(pcDecimals), pcLot * Pow10(coinDecimals);
      && (r.Success? <==>
            && Pow10(MaxDecimals(coinDecimals, pcDecimals)) < U64_LIMIT
            && 0 < numerator < U128_LIMIT && denominator < U128_LIMIT
            && sys * 5 < U64_LIMIT
            && denominator * sys < U128_LIMIT && denominator * sys < U64_LIMIT * numerator)
      && (r.Success? ==>
            && r.value.coinDecimals == coinDecimals && r.value.pcDecimals == pcDecimals
            && r.value.coinLotSize == coinLot && r.value.sysDecimalValue == sys
            && IsFloor(r.value.pcLotSize, denominator * sys, numerator))
  {
    var base := Pow10(MaxDecimals(coinDecimals, pcDecimals));
    var numerator, denominator := coinLot * Pow10(pcDecimals), pcLot * Pow10(coinDecimals);
    hide Pow10, Normalize, Normalized, ConvertInPcLotSize, IsFloor, LotRatio, IsBase;
    BaseOf(coinDecimals, pcDecimals, coinLot, pcLot, sys);
    Pow10Mono(pcDecimals, MaxDecimals(coinDecimals, pcDecimals));
    Pow10Mono(coinDecimals, MaxDecimals(coinDecimals, pcDecimals));
    if base < U64_LIMIT {
      LotRatioIs(coinDecimals, pcDecimals, coinLot, pcLot);
    }
    if base < U64_LIMIT && sys * 5 < U64_LIMIT {
      NormalizeFits(coinLot, coinDecimals, sys);
      TickIs(pcDecimals, coinDecimals, pcLot, coinLot, sys);
      SwapFactors(pcLot, sys, Pow10(coinDecimals));
    }
  }

  lemma BaseOf(coinDecimals: u8, pcDecimals: u8, coinLot: u64, pcLot: u64, sys: nat)
    requires IsBase(sys, coinDecimals, pcDecimals, coinLot, pcLot)
    ensures var base := Pow10(MaxDecimals(coinDecimals, pcDecimals));
      var numerator, denominator := coinLot * Pow10(pcDecimals), pcLot * Pow10(coinDecimals);
      0 < denominator && sys == if base <= numerator / denominator then numerator / denominator else base
  {
    hide Pow10;
    BaseIs(sys, Pow10(MaxDecimals(coinDecimals, pcDecimals)), coinLot * Pow10(pcDecimals), pcLot * Pow10(coinDecimals));
  }

  lemma LotRatioIs(coinDecimals: u8, pcDecimals: u8, coinLot: u64, pcLot: u64)
    requires Pow10(pcDecimals) < U64_LIMIT && Pow10(coinDecimals) < U64_LIMIT
    ensures var numerator, denominator := coinLot * Pow10(pcDecimals), pcLot * Pow10(coinDecimals);
      LotRatio(coinDecimals, pcDecimals, coinLot, pcLot) ==
        if numerator < U128_LIMIT && denominator < U128_LIMIT then Success((numerator, denominator))
        else Failure(Overflow)
  {
    hide Pow10;
  }

  lemma TickIs(pcDecimals: u8, coinDecimals: u8, pcLot: u64, coinLot: u64, sys: u64)
    requires Pow10(pcDecimals) < U64_LIMIT && Pow10(coinDecimals) < U64_LIMIT
    ensures var r := ConvertInPcLotSize(pcDecimals, coinDecimals, pcLot, coinLot, sys);
      var a: nat, unit: nat, pcUnit: nat := pcLot * sys, Pow10(coinDecimals), Pow10(pcDecimals);
      var numerator: nat, scaled: nat := coinLot * pcUnit, a * unit;
      && (r.Success? <==> 0 < numerator < U128_LIMIT && scaled < U128_LIMIT && scaled < U64_LIMIT * numerator)
      && (r.Success? ==> IsFloor(r.value, scaled, numerator))
  {
    hide Pow10, IsFloor, ConvertInPcLotSize, CheckedQuotient;
    var a: nat, unit: nat, pcUnit: nat := pcLot * sys, Pow10(coinDecimals), Pow10(pcDecimals);
    MulMono2(pcLot, sys, U64_LIMIT - 1, U64_LIMIT - 1);
    ConvertIs(pcDecimals, coinDecimals, pcLot, coinLot, sys);
    CheckedQuotientIs(a * unit, coinLot * pcUnit);
  }

  /** A quotient of 128-bit operands that has to fit 64 bits. */
  function CheckedQuotient(n: nat, d: nat): Result<u64> {
    var n128 :- ToU128(n);
    var d128 :- ToU128(d);
    var q :- Div(n128, d128);
    ToU64(q)
  }

  lemma CheckedQuotientIs(n: nat, d: nat)
    ensures var r := CheckedQuotient(n, d);
      && (r.Success? <==> 0 < d < U128_LIMIT && n < U128_LIMIT && n < U64_LIMIT * d)
      && (r.Success? ==> IsFloor(r.value, n, d))
  {
    if 0 < d {
      QuotientFits(n, d);
    }
  }

  lemma ConvertIs(pcDecimals: u8, coinDecimals: u8, pcLot: u64, coinLot: u64, sys: u64)
    requires Pow10(pcDecimals) < U64_LIMIT && Pow10(coinDecimals) < U64_LIMIT && pcLot * sys < U128_LIMIT
    ensures var a: nat, unit: nat, pcUnit: nat := pcLot * sys, Pow10(coinDecimals), Pow10(pcDecimals);
      ConvertInPcLotSize(pcDecimals, coinDecimals, pcLot, coinLot, sys) == CheckedQuotient(a * unit, coinLot * pcUnit)
  {
    hide Pow10, Div, ToU64;
  }

  lemma BaseIs(sys: nat, base: nat, numerator: nat, denominator: nat)
    requires 0 < denominator
    requires numerator < base * denominator ==> sys == base
    requires base * denominator <= numerator ==> IsFloor(sys, numerator, denominator)
    ensures sys == if base <= numerator / denominator then numerator / denominator else base
  {
    FloorIs(numerator, denominator);
    if base * denominator <= numerator {
      DivAtLeast(numerator, denominator, base);
      FloorUnique(sys, numerator / denominator, numerator, denominator);
    } else {
      DivBelow(numerator, denominator, base);
    }
  }

  lemma QuotientFits(scaled: nat, numerator: nat)
    requires 0 < numerator
    ensures IsFloor(scaled / numerator, scaled, numerator)
    ensures scaled / numerator < U64_LIMIT <==> scaled < U64_LIMIT * numerator
  {
    FloorIs(scaled, numerator);
    if scaled < U64_LIMIT * numerator {
      DivBelow(scaled, numerator, U64_LIMIT);
    } else {
      DivAtLeast(scaled, numerator, U64_LIMIT);
    }
  }

  /** The price tick is at least one exactly when the base keeps pace with the lot
      ratio: always without the override, and under it only when the ratio is whole. */
  lemma InitPriceTick(coinDecimals: u8, pcDecimals: u8, coinLot: u64, pcLot: u64)
    requires InitScale(coinDecimals, pcDecimals, coinLot, pcLot).Success?
    ensures 0 < pcLot && 0 < pcLot * Pow10(coinDecimals)
    ensures InitScale(coinDecimals, pcDecimals, coinLot, pcLot).value.pcLotSize >= 1
      <==> (!Overridden(coinDecimals, pcDecimals, coinLot, pcLot)
            || (coinLot * Pow10(pcDecimals)) % (pcLot * Pow10(coinDecimals)) == 0)
  {
    var scale := InitScale(coinDecimals, pcDecimals, coinLot, pcLot).value;
    var numerator := LotRatio(coinDecimals, pcDecimals, coinLot, pcLot).value.0;
    var denominator := pcLot * Pow10(coinDecimals);
    if pcLot == 0 {
      assert false;
    }
    ProductReorder(pcLot, scale.sysDecimalValue, Pow10(coinDecimals));
    TickAgainstRatio(numerator, denominator, Pow10(MaxDecimals(coinDecimals, pcDecimals)), scale.sysDecimalValue);
  }

  lemma ProductReorder(a: nat, b: nat, c: nat)
    ensures a * b * c == b * (a * c)
  {
  }

  lemma TickAgainstRatio(numerator: nat, denominator: nat, base: nat, sys: nat)
    requires 0 < numerator && 0 < denominator
    requires var ratio := numerator / denominator; sys == if base <= ratio then ratio else base
    ensures (sys * denominator) / numerator >= 1
      <==> (!(base <= numerator / denominator) || numerator % denominator == 0)
  {
    var ratio := numerator / denominator;
    DivBounds(numerator, denominator);
    if ratio < base {
      MulMono(ratio + 1, sys, denominator);
      Distribute(ratio, 1, denominator);
    }
    if numerator <= sys * denominator {
      DivAtLeast(sys * denominator, numerator, 1);
    } else {
      DivBelow(sys * denominator, numerator, 1);
    }
  }

  /** Without the override both scales are whole. */
  lemma InitScaleIsInteger(coinDecimals: u8, pcDecimals: u8, coinLot: u64, pcLot: u64)
    requires InitScale(coinDecimals, pcDecimals, coinLot, pcLot).Success?
    requires 0 < pcLot && !Overridden(coinDecimals, pcDecimals, coinLot, pcLot)
    ensures var s := InitScale(coinDecimals, pcDecimals, coinLot, pcLot).value;
      && IntegerScale(Pow10(coinDecimals), s.sysDecimalValue)
      && IntegerScale(Pow10(pcDecimals), s.sysDecimalValue)
  {
    Pow10Mono(pcDecimals, MaxDecimals(coinDecimals, pcDecimals));
    Pow10Mono(coinDecimals, MaxDecimals(coinDecimals, pcDecimals));
  }

  /** A market whose lots, if they give a scale at all, give a whole one. */
  predicate WholeMarket(coinDecimals: u8, pcDecimals: u8, coinLot: u64, pcLot: u64) {
    var r := InitScale(coinDecimals, pcDecimals, coinLot, pcLot);
    r.Success? ==> WholeScale(r.value)
  }

  /** Native amounts always normalise: both factors are 64 bits wide. */
  lemma NormalizeFits(v: u64, decimals: u8, sys: u64)
    requires Pow10(decimals) < U64_LIMIT
    ensures Normalize(v, decimals, sys) == Success(Normalized(v, Pow10(decimals), sys))
    ensures Normalized(v, Pow10(decimals), sys) < U128_LIMIT
  {
    hide Pow10;
    MulMono2(v, sys, U64_LIMIT - 1, U64_LIMIT - 1);
    QuotientIsSmaller(v * sys, Pow10(decimals));
  }

  lemma QuotientIsSmaller(n: nat, d: nat)
    requires 0 < d
    ensures n / d <= n
  {
    MulMono(1, d, n);
    DivAtMost(n, d, n);
  }

  /** Splitting an amount can only lose in normalising it. */
  lemma NormalizedSum(a: nat, b: nat, unit: nat, sys: nat)
    requires unit > 0
    ensures Normalized(a, unit, sys) + Normalized(b, unit, sys) <= Normalized(a + b, unit, sys)
  {
    DivBounds(a * sys, unit);
    DivBounds(b * sys, unit);
    Distribute(a, b, sys);
    Distribute(Normalized(a, unit, sys), Normalized(b, unit, sys), unit);
    DivAtLeast((a + b) * sys, unit, Normalized(a, unit, sys) + Normalized(b, unit, sys));
  }

  lemma NormalizedMono(a: nat, b: nat, unit: nat, sys: nat)
    requires unit > 0 && a <= b
    ensures Normalized(a, unit, sys) <= Normalized(b, unit, sys)
  {
    MulMono(a, b, sys);
    DivMono(a * sys, b * sys, unit);
  }

  /** Migration: the recorded baseline read in the old base and written in the new. */
  function Rebase(v: nat, unit: nat, oldSys: nat, newSys: nat): nat
    requires unit > 0 && oldSys > 0
  {
    Normalized(Restored(v, unit, oldSys), unit, newSys)
  }

  /** Re-basing never raises the native amount and lowers it by at most one. */
  lemma RebaseNeverRaises(v: nat, unit: nat, oldSys: nat, newSys: nat)
    requires 0 < unit <= newSys && 0 < oldSys
    ensures Restored(v, unit, oldSys) - 1
      <= Restored(Rebase(v, unit, oldSys, newSys), unit, newSys)
      <= Restored(v, unit, oldSys)
  {
    RoundTripLosesAtMostOne(Restored(v, unit, oldSys), unit, newSys);
  }
}
