/** The protocol's share of a pool's growth against its recorded baseline. */
module Pnl {
  import opened Checked
  import opened Arith
  import opened Decimals

  datatype PnlFee = PnlFee(numerator: u64, denominator: u64) {
    predicate Valid() {
      numerator < denominator
    }
  }

  /** The outcome of one profit computation: the normalised cuts, the native profit
      they come from, the native cuts, and the reserves that remain. */
  datatype Taking = Taking(
    deltaX: u128, deltaY: u128, grossPc: u64, grossCoin: u64,
    takePc: u64, takeCoin: u64, pcLeft: u64, coinLeft: u64)

  function XPower(lastX: u128, lastY: u128, x: u128, y: u128): Result<nat> {
    var k :- ToU256(lastX * lastY);
    var scaled :- ToU256(k * x);
    Div(scaled, y)
  }

  function Share(amount: nat, f: PnlFee): Result<nat> {
    var scaled :- ToU128(amount * f.numerator);
    Div(scaled, f.denominator)
  }

  /** The reserves on the recorded curve at the current price. */
  function OnOldCurve(calcX: u128, calcY: u128, x1: u128, y1: u128): Result<(nat, nat)> {
    var power :- XPower(calcX, calcY, x1, y1);
    var x2 := Sqrt(power);
    var scaled :- ToU256(x2 * y1);
    var y2 :- Div(scaled, x1);
    Success((x2, y2))
  }

  /** Normalised and native cut of one side's profit, in the order the program takes them. */
  function SideCut(diff: u128, decimals: u8, sys: u64, f: PnlFee): Result<(nat, nat, u64)> {
    var delta :- Share(diff, f);
    var gross :- Restore(diff, decimals, sys);
    var cut :- Share(gross, f);
    var cut64 :- ToU64(cut);
    Success((delta, gross, cut64))
  }

  function CalcTakePnl(
    s: Scale, f: PnlFee, calcX: u128, calcY: u128, pc: u64, coin: u64, x1: u128, y1: u128)
    : Result<Taking>
  {
    var _ :- Guard(s, calcX, calcY, pc, coin);
    var (diffX, diffY) :- Profit(calcX, calcY, x1, y1);
    Cut(s, f, pc, coin, diffX, diffY)
  }

  /** The native reserves must not lie below the recorded ones. */
  function Guard(s: Scale, calcX: u128, calcY: u128, pc: u64, coin: u64): Result<()> {
    var calcPc :- Restore(calcX, s.pcDecimals, s.sysDecimalValue);
    var calcCoin :- Restore(calcY, s.coinDecimals, s.sysDecimalValue);
    var product :- ToU128(pc * coin);
    var recorded :- ToU128(calcPc * calcCoin);
    :- Need(recorded <= product, CalcPnlError);
    Success(())
  }

  /** How far the reserves are from the recorded curve on each side. */
  function Profit(calcX: u128, calcY: u128, x1: u128, y1: u128): Result<(u128, u128)> {
    var (x2, y2) :- OnOldCurve(calcX, calcY, x1, y1);
    var diffX :- Sub(x1, x2);
    var diffY :- Sub(y1, y2);
    Success((diffX, diffY))
  }

  /** The cuts of both sides, taken only when both are at least one native unit. */
  function Cut(s: Scale, f: PnlFee, pc: u64, coin: u64, diffX: u128, diffY: u128): Result<Taking> {
    var (deltaX, grossPc, takePc) :- SideCut(diffX, s.pcDecimals, s.sysDecimalValue, f);
    var (deltaY, grossCoin, takeCoin) :- SideCut(diffY, s.coinDecimals, s.sysDecimalValue, f);
    if takePc != 0 && takeCoin != 0 then
      var grossPc64 :- ToU64(grossPc);
      var grossCoin64 :- ToU64(grossCoin);
      var pcLeft :- Sub(pc, takePc);
      var coinLeft :- Sub(coin, takeCoin);
      var dx :- ToU128(deltaX);
      var dy :- ToU128(deltaY);
      Success(Taking(dx, dy, grossPc64, grossCoin64, takePc, takeCoin, pcLeft, coinLeft))
    else
      Success(Taking(0, 0, 0, 0, 0, 0, pc, coin))
  }

  /** The whole computation, with the root taken by Newton's iteration. */
  method TakeProfit(
    s: Scale, f: PnlFee, calcX: u128, calcY: u128, pc: u64, coin: u64, x1: u128, y1: u128)
    returns (r: Result<Taking>)
    ensures r == CalcTakePnl(s, f, calcX, calcY, pc, coin, x1, y1)
  {
    hide Cut, XPower, Decimals.Restore;
    var calcPc: nat :- Decimals.Restore(calcX, s.pcDecimals, s.sysDecimalValue);
    var calcCoin: nat :- Decimals.Restore(calcY, s.coinDecimals, s.sysDecimalValue);
    var product :- ToU128(pc * coin);
    var recorded :- ToU128(calcPc * calcCoin);
    if product < recorded {
      return Failure(CalcPnlError);
    }
    var power :- XPower(calcX, calcY, x1, y1);
    var x2 := IntegerSqrt(power);
    var scaled :- ToU256(x2 * y1);
    var y2 :- Div(scaled, x1);
    var diffX: u128 :- Sub(x1, x2);
    var diffY: u128 :- Sub(y1, y2);
    r := Cut(s, f, pc, coin, diffX, diffY);
  }

  // ---- The recorded curve ----

  lemma SqrtOnCurve(k: nat, x: nat, y: nat)
    requires 0 < y && k <= x * y
    ensures var r := Sqrt((k * x) / y);
      r <= x && k * x < ((r + 1) * (r + 1)) * y
  {
    var power := (k * x) / y;
    var r := Sqrt(power);
    MulMono(k, x * y, x);
    SwapFactors(x, y, x);
    DivAtMost(k * x, y, x * x);
    SquareOrder(r, x);
    DivBounds(k * x, y);
    Distribute(power, 1, y);
    MulMono(power + 1, (r + 1) * (r + 1), y);
  }

  lemma Proportion(x2: nat, x: nat, y: nat)
    requires 0 < x && x2 <= x
    ensures var y2 := (x2 * y) / x;
      y2 <= y && y2 * x <= x2 * y < y2 * x + x
  {
    DivBounds(x2 * y, x);
    MulMono(x2, x, y);
    DivAtMost(x2 * y, x, y);
  }

  /** x2 and y2 lie below the reserves, and one step above x2 the old curve is passed. */
  lemma OldCurveBounds(calcX: u128, calcY: u128, x1: u128, y1: u128)
    requires OnOldCurve(calcX, calcY, x1, y1).Success?
    requires calcX * calcY <= x1 * y1
    ensures 0 < x1 && 0 < y1
    ensures var (x2, y2) := OnOldCurve(calcX, calcY, x1, y1).value;
      && x2 <= x1 && y2 <= y1
      && (calcX * calcY) * x1 < ((x2 + 1) * (x2 + 1)) * y1
      && y2 * x1 <= x2 * y1 < y2 * x1 + x1
  {
    var k := calcX * calcY;
    SqrtOnCurve(k, x1, y1);
    Proportion(Sqrt((k * x1) / y1), x1, y1);
  }

  lemma ProfitWithinReserves(calcX: u128, calcY: u128, x1: u128, y1: u128)
    requires 0 < x1 && 0 < y1 && calcX * calcY <= x1 * y1
    ensures var r := Profit(calcX, calcY, x1, y1);
      if r.Failure? then r.error == Overflow else r.value.0 <= x1 && r.value.1 <= y1
  {
    if OnOldCurve(calcX, calcY, x1, y1).Success? {
      OldCurveBounds(calcX, calcY, x1, y1);
    }
  }

  // ---- One side's cut ----

  lemma ShareBounds(amount: nat, f: PnlFee)
    requires f.Valid() && Share(amount, f).Success?
    ensures var c := Share(amount, f).value;
      && c * f.denominator <= amount * f.numerator
      && c <= amount
      && (0 < amount ==> c < amount)
  {
    var c := Share(amount, f).value;
    DivBounds(amount * f.numerator, f.denominator);
    MulMono(f.numerator, f.denominator, amount);
    DivAtMost(amount * f.numerator, f.denominator, amount);
    if 0 < amount {
      MulMono(f.numerator + 1, f.denominator, amount);
      DivBelow(amount * f.numerator, f.denominator, amount);
    }
  }

  /** A nonzero native cut needs a whole unit of share, also in normalised terms. */
  lemma CutImpliesDelta(diff: u128, decimals: u8, sys: u64, f: PnlFee)
    requires f.Valid() && Pow10(decimals) <= sys
    requires SideCut(diff, decimals, sys, f).Success?
    ensures var (delta, gross, cut) := SideCut(diff, decimals, sys, f).value;
      && gross <= diff
      && cut <= gross && (0 < gross ==> cut < gross)
      && cut <= delta <= diff
      && cut * f.denominator <= gross * f.numerator
      && delta * f.denominator <= diff * f.numerator
      && (cut != 0 ==> f.denominator <= diff * f.numerator)
  {
    var (delta, gross, cut) := SideCut(diff, decimals, sys, f).value;
    MulMono(Pow10(decimals), sys, diff);
    DivAtMost(diff * Pow10(decimals), sys, diff);
    ShareBounds(diff, f);
    ShareBounds(gross, f);
    MulMono(gross, diff, f.numerator);
    DivMono(gross * f.numerator, diff * f.numerator, f.denominator);
    if cut != 0 {
      MulMono(1, cut, f.denominator);
    }
  }

  /** On an integer scale the native cut, normalised, never exceeds the normalised cut. */
  lemma CutWithinDelta(diff: u128, decimals: u8, sys: u64, f: PnlFee, total: nat)
    requires f.Valid() && IntegerScale(Pow10(decimals), sys)
    requires SideCut(diff, decimals, sys, f).Success?
    requires diff <= total * (sys / Pow10(decimals))
    ensures var (delta, gross, cut) := SideCut(diff, decimals, sys, f).value;
      && gross <= total
      && cut * (sys / Pow10(decimals)) <= delta <= (cut + 2) * (sys / Pow10(decimals))
  {
    var (delta, gross, cut) := SideCut(diff, decimals, sys, f).value;
    var s := sys / Pow10(decimals);
    IntegerScaleIsExact(diff, Pow10(decimals), sys);
    DivAtMost(diff, s, total);
    FloorsCompose(diff, s, f.numerator, f.denominator);
  }

  /** Scaling down, taking a fraction and scaling up never gains, and loses at most
      two scale units. */
  lemma FloorsCompose(diff: nat, s: nat, n: nat, d: nat)
    requires 0 < s && n < d
    ensures var cut := ((diff / s) * n) / d;
      cut * s <= (diff * n) / d <= (cut + 2) * s
  {
    var gross := diff / s;
    var cut := (gross * n) / d;
    DivBounds(diff, s);
    DivBounds(gross * n, d);
    FloorsNeverGain(diff, s, n, d, gross, cut);
    DivAtLeast(diff * n, d, cut * s);
    FloorsLoseLittle(diff, s, n, d, gross, cut);
    DivAtMost(diff * n, d, (cut + 2) * s);
  }

  lemma FloorsNeverGain(diff: nat, s: nat, n: nat, d: nat, gross: nat, cut: nat)
    requires gross * s <= diff && cut * d <= gross * n
    ensures (cut * s) * d <= diff * n
  {
    MulMono(cut * d, gross * n, s);
    MulMono(gross * s, diff, n);
    SwapFactors(cut, d, s);
    SwapFactors(gross, n, s);
  }

  lemma FloorsLoseLittle(diff: nat, s: nat, n: nat, d: nat, gross: nat, cut: nat)
    requires n < d && diff < gross * s + s && gross * n < cut * d + d
    ensures diff * n <= ((cut + 2) * s) * d
  {
    MulMono(diff, gross * s + s, n);
    Distribute(gross * s, s, n);
    SwapFactors(gross, s, n);
    MulMono(gross * n, (cut + 1) * d, s);
    Distribute(cut, 1, d);
    SwapFactors(cut + 1, d, s);
    MulMono(n, d, s);
    Distribute((cut + 1) * s, s, d);
    Distribute(cut + 1, 1, s);
  }

  // ---- Never an error, never an underflow ----

  /** The situation of a pool that has kept its baseline: normalised reserves on or
      above the recorded curve, in a base that covers both units. */
  ghost predicate OnOrAboveBaseline(
    s: Scale, f: PnlFee, calcX: u128, calcY: u128, pc: u64, coin: u64, x1: u128, y1: u128)
  {
    && f.Valid()
    && 0 < pc && 0 < coin
    && CoversUnits(s)
    && x1 == Normalized(pc, Pow10(s.pcDecimals), s.sysDecimalValue)
    && y1 == Normalized(coin, Pow10(s.coinDecimals), s.sysDecimalValue)
    && calcX * calcY <= x1 * y1
  }

  /** The guard compares native products; the normalised comparison implies it, whatever
      the floors of either conversion. */
  lemma NativeGuardHolds(calcX: nat, calcY: nat, pc: nat, coin: nat, ux: nat, uy: nat, sys: nat)
    requires 0 < ux && 0 < uy && 0 < sys
    requires calcX * calcY <= Normalized(pc, ux, sys) * Normalized(coin, uy, sys)
    ensures Restored(calcX, ux, sys) * Restored(calcY, uy, sys) <= pc * coin
  {
    var a, b := Restored(calcX, ux, sys), Restored(calcY, uy, sys);
    var x, y := Normalized(pc, ux, sys), Normalized(coin, uy, sys);
    DivBounds(calcX * ux, sys);
    DivBounds(calcY * uy, sys);
    DivBounds(pc * sys, ux);
    DivBounds(coin * sys, uy);
    hide Normalized, Restored;
    ScaledChain(a, b, calcX, calcY, x, y, pc, coin, ux, uy, sys);
  }

  lemma ScaledChain(
    a: nat, b: nat, k: nat, l: nat, x: nat, y: nat, pc: nat, coin: nat, ux: nat, uy: nat, sys: nat)
    requires 0 < sys
    requires a * sys <= k * ux && b * sys <= l * uy && k * l <= x * y
    requires x * ux <= pc * sys && y * uy <= coin * sys
    ensures a * b <= pc * coin
  {
    MulMono2(a * sys, b * sys, k * ux, l * uy);
    Regroup(a, b, sys, sys);
    Regroup(k, l, ux, uy);
    MulMono(k * l, x * y, ux * uy);
    Regroup(x, y, ux, uy);
    MulMono2(x * ux, y * uy, pc * sys, coin * sys);
    Regroup(pc, coin, sys, sys);
    MulMono2(1, 1, sys, sys);
    MulCancelLe(a * b, pc * coin, sys * sys);
  }

  /** Taking profit on or above the baseline either succeeds or runs out of integer
      width: the guard never reports an error and no subtraction underflows. */
  lemma TakePnlOnlyOverflows(
    s: Scale, f: PnlFee, calcX: u128, calcY: u128, pc: u64, coin: u64, x1: u128, y1: u128)
    requires OnOrAboveBaseline(s, f, calcX, calcY, pc, coin, x1, y1)
    ensures var r := CalcTakePnl(s, f, calcX, calcY, pc, coin, x1, y1);
      r.Failure? ==> r.error == Overflow
  {
    IsSeen(pc, Pow10(s.pcDecimals), s.sysDecimalValue);
    IsSeen(coin, Pow10(s.coinDecimals), s.sysDecimalValue);
    GuardPasses(s, calcX, calcY, pc, coin);
    ProfitWithinReserves(calcX, calcY, x1, y1);
    var profit := Profit(calcX, calcY, x1, y1);
    hide Guard, Profit, Cut, Normalized;
    if profit.Success? {
      CutOnlyOverflows(s, f, pc, coin, profit.value.0, profit.value.1);
    }
  }

  /** A nonzero amount is nonzero in a base that covers its unit. */
  lemma IsSeen(v: nat, unit: nat, sys: nat)
    requires 0 < v && 0 < unit <= sys
    ensures 0 < Normalized(v, unit, sys)
  {
    MulMono(1, v, sys);
    DivAtLeast(v * sys, unit, 1);
  }

  lemma CutOnlyOverflows(s: Scale, f: PnlFee, pc: u64, coin: u64, diffX: u128, diffY: u128)
    requires f.Valid() && 0 < s.sysDecimalValue
    requires diffX <= Normalized(pc, Pow10(s.pcDecimals), s.sysDecimalValue)
    requires diffY <= Normalized(coin, Pow10(s.coinDecimals), s.sysDecimalValue)
    ensures var r := Cut(s, f, pc, coin, diffX, diffY); r.Failure? ==> r.error == Overflow
  {
    hide SideCut, Normalized;
    CutFits(diffX, s.pcDecimals, s.sysDecimalValue, f, pc);
    CutFits(diffY, s.coinDecimals, s.sysDecimalValue, f, coin);
  }

  lemma GuardPasses(s: Scale, calcX: u128, calcY: u128, pc: u64, coin: u64)
    requires 0 < s.sysDecimalValue
    requires calcX * calcY
      <= Normalized(pc, Pow10(s.pcDecimals), s.sysDecimalValue)
       * Normalized(coin, Pow10(s.coinDecimals), s.sysDecimalValue)
    ensures var r := Guard(s, calcX, calcY, pc, coin); r.Failure? ==> r.error == Overflow
  {
    NativeGuardHolds(calcX, calcY, pc, coin, Pow10(s.pcDecimals), Pow10(s.coinDecimals), s.sysDecimalValue);
    hide Normalized, Restored;
  }

  /** A cut from profit that is part of the reserve is itself part of the reserve. */
  lemma CutFits(diff: u128, decimals: u8, sys: u64, f: PnlFee, total: u64)
    requires f.Valid() && 0 < sys
    requires diff <= Normalized(total, Pow10(decimals), sys)
    ensures var r := SideCut(diff, decimals, sys, f);
      if r.Failure? then r.error == Overflow
      else
        && r.value.0 <= diff
        && r.value.2 <= r.value.1 <= total
        && (0 < total ==> r.value.2 < total)
  {
    var r := SideCut(diff, decimals, sys, f);
    if r.Success? {
      var unit := Pow10(decimals);
      DivBounds(total * sys, unit);
      MulMono(diff, Normalized(total, unit, sys), unit);
      DivAtMost(diff * unit, sys, total);
      ShareBounds(diff, f);
      ShareBounds(r.value.1, f);
    }
  }

  /** The normalised cut is worth less than the native cut and two units. */
  lemma DeltaWithinCut(diff: u128, decimals: u8, sys: u64, f: PnlFee)
    requires f.Valid() && SideCut(diff, decimals, sys, f).Success?
    ensures var (delta, gross, cut) := SideCut(diff, decimals, sys, f).value;
      delta <= Normalized(cut + 2, Pow10(decimals), sys)
  {
    var (delta, gross, cut) := SideCut(diff, decimals, sys, f).value;
    var unit := Pow10(decimals);
    DivBounds(diff * f.numerator, f.denominator);
    DivBounds(gross * f.numerator, f.denominator);
    DivBounds(diff * unit, sys);
    hide SideCut, Pow10;
    DeltaChain(delta, gross, cut, diff, unit, sys, f.numerator, f.denominator);
    DivAtLeast((cut + 2) * sys, unit, delta);
  }

  lemma DeltaChain(delta: nat, gross: nat, cut: nat, diff: nat, unit: nat, sys: nat, n: nat, d: nat)
    requires n < d
    requires delta * d <= diff * n && diff * unit < gross * sys + sys && gross * n < cut * d + d
    ensures delta * unit <= (cut + 2) * sys
  {
    MulMono(delta * d, diff * n, unit);
    SwapFactors(delta, d, unit);
    SwapFactors(diff, n, unit);
    Distribute(gross, 1, sys);
    MulMono(diff * unit, (gross + 1) * sys, n);
    SwapFactors(gross + 1, sys, n);
    Distribute(gross, 1, n);
    Distribute(cut, 2, d);
    MulMono((gross + 1) * n, (cut + 2) * d, sys);
    SwapFactors(cut + 2, d, sys);
    MulCancelLe(delta * unit, (cut + 2) * sys, d);
  }

  /** A native cut reads as no more than the normalised cut, on any scale. */
  lemma CutReadsWithinDelta(diff: u128, decimals: u8, sys: u64, f: PnlFee)
    requires f.Valid() && SideCut(diff, decimals, sys, f).Success?
    ensures var (delta, gross, cut) := SideCut(diff, decimals, sys, f).value;
      Normalized(cut, Pow10(decimals), sys) <= delta
  {
    var (delta, gross, cut) := SideCut(diff, decimals, sys, f).value;
    var unit := Pow10(decimals);
    var n, d := f.numerator, f.denominator;
    DivBounds(diff * unit, sys);
    DivBounds(gross * n, d);
    DivBounds(cut * sys, unit);
    hide SideCut, Pow10;
    ReadingChain(Normalized(cut, unit, sys), gross, cut, diff, unit, sys, n, d);
    DivAtLeast(diff * n, d, Normalized(cut, unit, sys));
  }

  lemma ReadingChain(read: nat, gross: nat, cut: nat, diff: nat, unit: nat, sys: nat, n: nat, d: nat)
    requires 0 < unit
    requires gross * sys <= diff * unit && cut * d <= gross * n && read * unit <= cut * sys
    ensures read * d <= diff * n
  {
    MulMono(read * unit, cut * sys, d);
    SwapFactors(read, unit, d);
    SwapFactors(cut, sys, d);
    MulMono(cut * d, gross * n, sys);
    SwapFactors(gross, n, sys);
    MulMono(gross * sys, diff * unit, n);
    SwapFactors(diff, unit, n);
    MulCancelLe(read * d, diff * n, unit);
  }

  lemma CutStaysWithin(diff: u128, decimals: u8, sys: u64, f: PnlFee, total: u64)
    requires f.Valid() && IntegerScale(Pow10(decimals), sys)
    requires diff <= Normalized(total, Pow10(decimals), sys)
    requires SideCut(diff, decimals, sys, f).Success?
    ensures var r := SideCut(diff, decimals, sys, f).value;
      r.2 * (sys / Pow10(decimals)) <= r.0 <= (r.2 + 2) * (sys / Pow10(decimals))
  {
    IntegerScaleIsExact(total, Pow10(decimals), sys);
    CutWithinDelta(diff, decimals, sys, f, total);
  }
}
