/** What taking profit does to the reserves and to the recorded baseline. */
module Baseline {
  import opened Checked
  import opened Arith
  import opened Decimals
  import opened Pnl

  // ---- Conservation ----

  /** Nothing is lost or counted twice: cut plus remainder is the old reserve, each
      cut is at most its fraction of the native profit, and the normalised cuts are
      both nonzero exactly when the native ones are, else all are zero. */
  lemma TakingConserves(
    s: Scale, f: PnlFee, calcX: u128, calcY: u128, pc: u64, coin: u64, x1: u128, y1: u128)
    requires f.Valid() && CoversUnits(s) && calcX * calcY <= x1 * y1
    requires CalcTakePnl(s, f, calcX, calcY, pc, coin, x1, y1).Success?
    ensures var t := CalcTakePnl(s, f, calcX, calcY, pc, coin, x1, y1).value;
      && t.pcLeft + t.takePc == pc
      && t.coinLeft + t.takeCoin == coin
      && t.takePc * f.denominator <= t.grossPc * f.numerator
      && t.takeCoin * f.denominator <= t.grossCoin * f.numerator
      && (t.takePc != 0 <==> t.takeCoin != 0)
      && (t.takePc != 0 <==> t.deltaX != 0 && t.deltaY != 0)
      && t.deltaX <= x1 && t.deltaY <= y1
  {
    OldCurveBounds(calcX, calcY, x1, y1);
    var (diffX, diffY) := Profit(calcX, calcY, x1, y1).value;
    CutConserves(s, f, pc, coin, diffX, diffY);
  }

  lemma CutConserves(s: Scale, f: PnlFee, pc: u64, coin: u64, diffX: u128, diffY: u128)
    requires f.Valid() && CoversUnits(s)
    requires Cut(s, f, pc, coin, diffX, diffY).Success?
    ensures var t := Cut(s, f, pc, coin, diffX, diffY).value;
      && t.pcLeft + t.takePc == pc
      && t.coinLeft + t.takeCoin == coin
      && t.takePc * f.denominator <= t.grossPc * f.numerator
      && t.takeCoin * f.denominator <= t.grossCoin * f.numerator
      && (t.takePc != 0 <==> t.takeCoin != 0)
      && (t.takePc != 0 <==> t.deltaX != 0 && t.deltaY != 0)
      && t.deltaX * f.denominator <= diffX * f.numerator
      && t.deltaY * f.denominator <= diffY * f.numerator
      && t.deltaX <= diffX && t.deltaY <= diffY
      && (t.takePc != 0 ==> f.denominator <= diffX * f.numerator && f.denominator <= diffY * f.numerator)
  {
    CutImpliesDelta(diffX, s.pcDecimals, s.sysDecimalValue, f);
    CutImpliesDelta(diffY, s.coinDecimals, s.sysDecimalValue, f);
  }

  lemma CutIsAllOrNothing(s: Scale, f: PnlFee, pc: u64, coin: u64, diffX: u128, diffY: u128)
    requires Cut(s, f, pc, coin, diffX, diffY).Success?
    ensures var t := Cut(s, f, pc, coin, diffX, diffY).value;
      t.takePc == 0 ==> t == Taking(0, 0, 0, 0, 0, 0, pc, coin)
  {
  }

  /** Whatever the scale and the baseline, a taking empties neither side, and each
      normalised cut is part of its reading and worth less than the native cut and two
      units. */
  lemma TakingLeavesReserves(
    s: Scale, f: PnlFee, calcX: u128, calcY: u128, pc: u64, coin: u64, x1: u128, y1: u128)
    requires f.Valid() && 0 < pc && 0 < coin
    requires x1 == Normalized(pc, Pow10(s.pcDecimals), s.sysDecimalValue)
    requires y1 == Normalized(coin, Pow10(s.coinDecimals), s.sysDecimalValue)
    requires CalcTakePnl(s, f, calcX, calcY, pc, coin, x1, y1).Success?
    ensures var t := CalcTakePnl(s, f, calcX, calcY, pc, coin, x1, y1).value;
      && 0 < t.pcLeft && t.pcLeft + t.takePc == pc
      && 0 < t.coinLeft && t.coinLeft + t.takeCoin == coin
      && t.deltaX <= x1 && t.deltaX <= Normalized(t.takePc + 2, Pow10(s.pcDecimals), s.sysDecimalValue)
      && t.deltaY <= y1 && t.deltaY <= Normalized(t.takeCoin + 2, Pow10(s.coinDecimals), s.sysDecimalValue)
  {
    hide CalcTakePnl, Cut, Profit, Normalized;
    TakingIsCut(s, f, calcX, calcY, pc, coin, x1, y1);
    var (diffX, diffY) := Profit(calcX, calcY, x1, y1).value;
    CutLeavesReserves(s, f, pc, coin, diffX, diffY);
  }

  /** A completed taking is a cut of profits that are part of their readings. */
  lemma TakingIsCut(
    s: Scale, f: PnlFee, calcX: u128, calcY: u128, pc: u64, coin: u64, x1: u128, y1: u128)
    requires CalcTakePnl(s, f, calcX, calcY, pc, coin, x1, y1).Success?
    ensures Profit(calcX, calcY, x1, y1).Success?
    ensures var (diffX, diffY) := Profit(calcX, calcY, x1, y1).value;
      && diffX <= x1 && diffY <= y1
      && CalcTakePnl(s, f, calcX, calcY, pc, coin, x1, y1) == Cut(s, f, pc, coin, diffX, diffY)
  {
    ProfitIsPart(calcX, calcY, x1, y1);
    hide Guard, Profit, Cut;
  }

  lemma ProfitIsPart(calcX: u128, calcY: u128, x1: u128, y1: u128)
    requires Profit(calcX, calcY, x1, y1).Success?
    ensures Profit(calcX, calcY, x1, y1).value.0 <= x1 && Profit(calcX, calcY, x1, y1).value.1 <= y1
  {
    hide XPower;
  }

  lemma CutLeavesReserves(s: Scale, f: PnlFee, pc: u64, coin: u64, diffX: u128, diffY: u128)
    requires f.Valid() && 0 < pc && 0 < coin
    requires diffX <= Normalized(pc, Pow10(s.pcDecimals), s.sysDecimalValue)
    requires diffY <= Normalized(coin, Pow10(s.coinDecimals), s.sysDecimalValue)
    requires Cut(s, f, pc, coin, diffX, diffY).Success?
    ensures var t := Cut(s, f, pc, coin, diffX, diffY).value;
      && 0 < t.pcLeft && t.pcLeft + t.takePc == pc
      && 0 < t.coinLeft && t.coinLeft + t.takeCoin == coin
      && t.deltaX <= diffX && t.deltaX <= Normalized(t.takePc + 2, Pow10(s.pcDecimals), s.sysDecimalValue)
      && t.deltaY <= diffY && t.deltaY <= Normalized(t.takeCoin + 2, Pow10(s.coinDecimals), s.sysDecimalValue)
  {
    BaseIsPositive(diffX, s.pcDecimals, s.sysDecimalValue, f);
    CutFits(diffX, s.pcDecimals, s.sysDecimalValue, f, pc);
    CutFits(diffY, s.coinDecimals, s.sysDecimalValue, f, coin);
    DeltaWithinCut(diffX, s.pcDecimals, s.sysDecimalValue, f);
    DeltaWithinCut(diffY, s.coinDecimals, s.sysDecimalValue, f);
    hide SideCut, Normalized;
  }

  lemma BaseIsPositive(diff: u128, decimals: u8, sys: u64, f: PnlFee)
    ensures SideCut(diff, decimals, sys, f).Success? ==> 0 < sys
  {
  }

  /** The normalised cut is the native one, scaled, and at most two scale units more. */
  ghost predicate CoversCut(take: nat, s: nat, delta: nat) {
    take * s <= delta <= (take + 2) * s
  }

  /** After a taking, the reduced readings that become the new baseline exceed what is left
      by at most one normalised unit a side on any scale, and by nothing on a whole one. */
  lemma TakingStaysAbove(
    s: Scale, f: PnlFee, calcX: u128, calcY: u128, pc: u64, coin: u64, x1: u128, y1: u128)
    requires f.Valid() && 0 < pc && 0 < coin
    requires x1 == Normalized(pc, Pow10(s.pcDecimals), s.sysDecimalValue)
    requires y1 == Normalized(coin, Pow10(s.coinDecimals), s.sysDecimalValue)
    requires CalcTakePnl(s, f, calcX, calcY, pc, coin, x1, y1).Success?
    ensures var t := CalcTakePnl(s, f, calcX, calcY, pc, coin, x1, y1).value;
      && x1 - t.deltaX <= Normalized(t.pcLeft, Pow10(s.pcDecimals), s.sysDecimalValue) + 1
      && y1 - t.deltaY <= Normalized(t.coinLeft, Pow10(s.coinDecimals), s.sysDecimalValue) + 1
      && (WholeScale(s) ==>
            && CoversCut(t.takePc, s.sysDecimalValue / Pow10(s.pcDecimals), t.deltaX)
            && CoversCut(t.takeCoin, s.sysDecimalValue / Pow10(s.coinDecimals), t.deltaY)
            && x1 - t.deltaX <= Normalized(t.pcLeft, Pow10(s.pcDecimals), s.sysDecimalValue)
            && y1 - t.deltaY <= Normalized(t.coinLeft, Pow10(s.coinDecimals), s.sysDecimalValue))
  {
    hide CalcTakePnl, Cut, Profit, Normalized;
    TakingIsCut(s, f, calcX, calcY, pc, coin, x1, y1);
    var (diffX, diffY) := Profit(calcX, calcY, x1, y1).value;
    CutLeavesReserves(s, f, pc, coin, diffX, diffY);
    var t := Cut(s, f, pc, coin, diffX, diffY).value;
    CutStaysAbove(s, f, pc, coin, diffX, diffY);
    SplitReading(pc, t.pcLeft, t.takePc, Pow10(s.pcDecimals), s.sysDecimalValue);
    SplitReading(coin, t.coinLeft, t.takeCoin, Pow10(s.coinDecimals), s.sysDecimalValue);
  }

  lemma CutStaysAbove(s: Scale, f: PnlFee, pc: u64, coin: u64, diffX: u128, diffY: u128)
    requires f.Valid() && 0 < pc && 0 < coin
    requires diffX <= Normalized(pc, Pow10(s.pcDecimals), s.sysDecimalValue)
    requires diffY <= Normalized(coin, Pow10(s.coinDecimals), s.sysDecimalValue)
    requires Cut(s, f, pc, coin, diffX, diffY).Success?
    ensures var t := Cut(s, f, pc, coin, diffX, diffY).value;
      && Normalized(t.takePc, Pow10(s.pcDecimals), s.sysDecimalValue) <= t.deltaX
      && Normalized(t.takeCoin, Pow10(s.coinDecimals), s.sysDecimalValue) <= t.deltaY
      && (WholeScale(s) ==>
            && CoversCut(t.takePc, s.sysDecimalValue / Pow10(s.pcDecimals), t.deltaX)
            && CoversCut(t.takeCoin, s.sysDecimalValue / Pow10(s.coinDecimals), t.deltaY))
  {
    hide Pnl.SideCut, Normalized;
    CutReadsWithinDelta(diffX, s.pcDecimals, s.sysDecimalValue, f);
    CutReadsWithinDelta(diffY, s.coinDecimals, s.sysDecimalValue, f);
    NothingReadsAsNothing(Pow10(s.pcDecimals), s.sysDecimalValue);
    NothingReadsAsNothing(Pow10(s.coinDecimals), s.sysDecimalValue);
    if WholeScale(s) {
      CutStaysWithin(diffX, s.pcDecimals, s.sysDecimalValue, f, pc);
      CutStaysWithin(diffY, s.coinDecimals, s.sysDecimalValue, f, coin);
    }
  }

  lemma NothingReadsAsNothing(unit: nat, sys: nat)
    requires 0 < unit
    ensures Normalized(0, unit, sys) == 0
  {
  }

  /** Splitting an amount loses at most one unit of its reading, and nothing on a whole
      scale. */
  lemma SplitReading(total: nat, left: nat, take: nat, unit: nat, sys: nat)
    requires 0 < unit && left + take == total
    ensures var both := Normalized(left, unit, sys) + Normalized(take, unit, sys);
      && both <= Normalized(total, unit, sys) <= both + 1
      && (IntegerScale(unit, sys) ==> Normalized(total, unit, sys) == both)
  {
    NormalizedSum(left, take, unit, sys);
    var a, b := Normalized(left, unit, sys), Normalized(take, unit, sys);
    DivBounds(left * sys, unit);
    DivBounds(take * sys, unit);
    Distribute(left, take, sys);
    Distribute(a + 1, b + 1, unit);
    Distribute(a, 1, unit);
    Distribute(b, 1, unit);
    DivBelow(total * sys, unit, a + b + 2);
    if IntegerScale(unit, sys) {
      IntegerScaleIsExact(left, unit, sys);
      IntegerScaleIsExact(take, unit, sys);
      IntegerScaleIsExact(total, unit, sys);
      Distribute(left, take, sys / unit);
    }
  }

  // ---- The new baseline is never below the old ----

  /** A profit share below one half leaves room for every rounding. */
  lemma SlackCoversRounding(x: nat, y: nat, x2: nat, n: nat, d: nat)
    requires x2 <= x && 2 * n < d
    requires d <= n * (x - x2)
    requires 2 * x < (x - x2) * y
    ensures var p, q := d * x - n * (x - x2), d * (x2 + 1);
      q <= p && p * (n * x) <= ((p - q) * (p + q)) * y
  {
    var u := x - x2;
    assert u >= 3 by {
      if u <= 2 { MulMono(u, 2, n); }
    }
    GapIs(x, x2, u, n, d);
    if u >= 4 {
      FourUnits(u, n, d);
      WideSlack(x, y, u, n, d, d * x - n * u, d * (x2 + 1));
    } else {
      ThreeUnits(x, x2, n, d);
      NarrowGap(x, y, n, d, (d - n) * u - d, d * x - n * u, d * (x2 + 1));
    }
  }

  lemma WideSlack(x: nat, y: nat, u: nat, n: nat, d: nat, p: nat, q: nat)
    requires 2 * n < d && d * u <= 4 * (p - q) && 2 * x < u * y && q <= p
    ensures p * (n * x) <= ((p - q) * (p + q)) * y
  {
    WideGap(x, y, u, n, d, p - q);
    WideGapSuffices(n * x, y, p, q);
  }

  lemma WideGapSuffices(m: nat, y: nat, p: nat, q: nat)
    requires q <= p && m <= (p - q) * y
    ensures p * m <= ((p - q) * (p + q)) * y
  {
    MulMono(p, p + q, (p - q) * y);
    MulMono(m, (p - q) * y, p);
    SwapFactors(p - q, y, p + q);
  }

  lemma ThreeUnits(x: nat, x2: nat, n: nat, d: nat)
    requires x == x2 + 3 && d <= 3 * n && 2 * n < d
    ensures var p, q, t := d * x - n * 3, d * (x2 + 1), (d - n) * 3 - d;
      0 <= p && d <= 2 * t && 3 * p <= 2 * (p + q)
  {
    GapIs(x, x2, 3, n, d);
    assert 0 <= d * x2;
  }

  lemma GapIs(x: nat, x2: nat, u: nat, n: nat, d: nat)
    requires x == x2 + u
    ensures d * x - n * u == d * x2 + d * u - n * u
    ensures d * (x2 + 1) == d * x2 + d
    ensures (d * x - n * u) - d * (x2 + 1) == (d - n) * u - d
  {
  }

  lemma FourUnits(u: nat, n: nat, d: nat)
    requires 4 <= u && 2 * n < d
    ensures d * u <= 4 * ((d - n) * u - d)
  {
    MulMono(d, 2 * (d - n), u);
    assert (2 * (d - n)) * u == 2 * ((d - n) * u);
    MulMono(4, u, d);
  }

  lemma WideGap(x: nat, y: nat, u: nat, n: nat, d: nat, t: nat)
    requires 2 * n < d && d * u <= 4 * t && 2 * x < u * y
    ensures n * x <= t * y
  {
    MulMono(d * u, 4 * t, y);
    assert (d * u) * y == d * (u * y);
    MulMono(2 * x, u * y, d);
    assert d * (2 * x) == 2 * (d * x);
    MulMono(2 * n, d, x);
    assert (2 * n) * x == 2 * (n * x);
    assert (4 * t) * y == 4 * (t * y);
  }

  lemma NarrowGap(x: nat, y: nat, n: nat, d: nat, t: nat, p: nat, q: nat)
    requires 2 * n < d && d <= 2 * t && 2 * x < 3 * y && 3 * p <= 2 * (p + q)
    ensures p * (n * x) <= (t * (p + q)) * y
  {
    var a := t * y;
    MulMono2(d, 2 * x, 2 * t, 3 * y);
    assert (2 * t) * (3 * y) == 6 * a;
    MulMono(2 * n, d, 2 * x);
    assert (2 * n) * (2 * x) == 4 * (n * x);
    assert 4 * (n * x) <= 6 * a;
    MulMono(4 * (n * x), 6 * a, p);
    MulMono(3 * p, 2 * (p + q), 2 * a);
    assert (4 * (n * x)) * p == 4 * (p * (n * x));
    assert (6 * a) * p == (3 * p) * (2 * a);
    assert (2 * (p + q)) * (2 * a) == 4 * ((p + q) * a);
    assert (p + q) * (t * y) == (t * (p + q)) * y;
  }

  lemma DifferenceOfSquares(p: int, q: int, y: int, m: int)
    ensures p * (p * y - m) - (q * q) * y == ((p - q) * (p + q)) * y - p * m
  {
    assert (p - q) * (p + q) == p * p - q * q;
    Distribute(p * p, q * q, y);
    assert (p * p) * y == p * (p * y);
    assert p * (p * y - m) == p * (p * y) - p * m;
  }

  /** What y gives up, measured at the current price, is within one unit of what x does. */
  lemma OtherSideGap(x: nat, y: nat, x2: nat, y2: nat)
    requires x2 <= x && y2 <= y
    requires y2 * x <= x2 * y < y2 * x + x
    ensures (y - y2) * x < (x - x2) * y + x
    ensures (y - y2) * x >= (x - x2) * y
  {
    Distribute(y, y2, x);
    Distribute(x, x2, y);
  }

  lemma CutSidesBound(x: nat, y: nat, x2: nat, y2: nat, n: nat, d: nat, deltaX: nat, deltaY: nat)
    requires x2 <= x && y2 <= y && deltaX <= x && deltaY <= y && 2 * n < d
    requires y2 * x <= x2 * y < y2 * x + x
    requires deltaX * d <= (x - x2) * n && deltaY * d <= (y - y2) * n
    ensures var p := d * x - n * (x - x2);
      && 0 <= p <= d * (x - deltaX)
      && p * y - n * x <= (d * (y - deltaY)) * x
  {
    var u, v := x - x2, y - y2;
    assert d * (x - deltaX) == d * x - deltaX * d;
    MulMono(n, d, u);
    MulMono(u, x, d);
    assert n * u == u * n;
    OtherSideGap(x, y, x2, y2);
    assert d * (y - deltaY) == d * y - deltaY * d;
    MulMono(d * y - v * n, d * (y - deltaY), x);
    Distribute(d * y, v * n, x);
    SwapFactors(v, n, x);
    MulMono(v * x, u * y + x, n);
    Distribute(u * y, x, n);
    SwapFactors(u, y, n);
    Distribute(d * x, n * u, y);
    SwapFactors(d, y, x);
    assert n * x == x * n;
  }

  /** The whole inequality over plain integers. */
  lemma ReducedReservesCoverOldCurve(
    k: nat, x: nat, y: nat, x2: nat, y2: nat, n: nat, d: nat, deltaX: nat, deltaY: nat)
    requires 0 < x && x2 <= x && y2 <= y && deltaX <= x && deltaY <= y && 2 * n < d
    requires k * x < ((x2 + 1) * (x2 + 1)) * y
    requires y2 * x <= x2 * y < y2 * x + x
    requires deltaX * d <= (x - x2) * n && deltaY * d <= (y - y2) * n
    requires d <= (x - x2) * n && d <= (y - y2) * n
    ensures k <= (x - deltaX) * (y - deltaY)
  {
    var a, b := x - deltaX, y - deltaY;
    var p, q := d * x - n * (x - x2), d * (x2 + 1);
    CutSidesBound(x, y, x2, y2, n, d, deltaX, deltaY);
    OtherSideGap(x, y, x2, y2);
    assert y - y2 >= 3 by {
      if y - y2 <= 2 { MulMono(y - y2, 2, n); }
    }
    MulMono(3, y - y2, x);
    SlackCoversRounding(x, y, x2, n, d);
    DifferenceOfSquares(p, q, y, n * x);
    assert (q * q) * y <= p * (p * y - n * x);
    Assemble(k, x, y, x2, d, a, b, p, p * y - n * x);
  }

  lemma Assemble(k: nat, x: nat, y: nat, x2: nat, d: nat, a: nat, b: nat, p: nat, r: int)
    requires 0 < x && 0 < d
    requires k * x < ((x2 + 1) * (x2 + 1)) * y
    requires p <= d * a && r <= (d * b) * x
    requires ((d * (x2 + 1)) * (d * (x2 + 1))) * y <= p * r
    ensures k <= a * b
  {
    var h := ((x2 + 1) * (x2 + 1)) * y;
    var dd := d * d;
    Regroup(d, d, x2 + 1, x2 + 1);
    Associate(dd, (x2 + 1) * (x2 + 1), y);
    MulMono(r, (d * b) * x, p);
    MulMono(p, d * a, (d * b) * x);
    FactorsOut(d, a, b, x);
    assert dd * h <= dd * ((a * b) * x);
    MulMono2(1, 1, d, d);
    MulCancelLe(h, (a * b) * x, dd);
    MulCancelLt(k, a * b, x);
  }

  lemma Associate(a: int, b: int, c: int)
    ensures (a * b) * c == a * (b * c)
  {
  }

  lemma FactorsOut(d: int, a: int, b: int, x: int)
    ensures (d * a) * ((d * b) * x) == (d * d) * ((a * b) * x)
  {
    Associate(d * a, d * b, x);
    Regroup(d, d, a, b);
    assert (d * a) * (d * b) == (d * d) * (a * b);
    Associate(d * d, a * b, x);
  }

  /** Taking profit never lowers the baseline while the protocol's share is below one
      half, despite the floors in the root, in y2 and in both cuts. */
  lemma TakingNeverLowersBaseline(
    s: Scale, f: PnlFee, calcX: u128, calcY: u128, pc: u64, coin: u64, x1: u128, y1: u128)
    requires f.Valid() && CoversUnits(s) && calcX * calcY <= x1 * y1
    requires 2 * f.numerator < f.denominator
    requires CalcTakePnl(s, f, calcX, calcY, pc, coin, x1, y1).Success?
    ensures var t := CalcTakePnl(s, f, calcX, calcY, pc, coin, x1, y1).value;
      && t.deltaX <= x1 && t.deltaY <= y1
      && calcX * calcY <= (x1 - t.deltaX) * (y1 - t.deltaY)
  {
    OldCurveBounds(calcX, calcY, x1, y1);
    var (x2, y2) := OnOldCurve(calcX, calcY, x1, y1).value;
    CutKeepsBaseline(s, f, pc, coin, calcX * calcY, x1, y1, x2, y2);
  }

  lemma CutKeepsBaseline(
    s: Scale, f: PnlFee, pc: u64, coin: u64, k: nat, x1: u128, y1: u128, x2: nat, y2: nat)
    requires f.Valid() && CoversUnits(s) && 2 * f.numerator < f.denominator
    requires 0 < x1 && x2 <= x1 && y2 <= y1 && k <= x1 * y1
    requires k * x1 < ((x2 + 1) * (x2 + 1)) * y1
    requires y2 * x1 <= x2 * y1 < y2 * x1 + x1
    requires Cut(s, f, pc, coin, x1 - x2, y1 - y2).Success?
    ensures var t := Cut(s, f, pc, coin, x1 - x2, y1 - y2).value;
      && t.deltaX <= x1 && t.deltaY <= y1
      && k <= (x1 - t.deltaX) * (y1 - t.deltaY)
  {
    CutConserves(s, f, pc, coin, x1 - x2, y1 - y2);
    CutIsAllOrNothing(s, f, pc, coin, x1 - x2, y1 - y2);
    var t := Cut(s, f, pc, coin, x1 - x2, y1 - y2).value;
    if t.takePc != 0 {
      ReducedReservesCoverOldCurve(k, x1, y1, x2, y2, f.numerator, f.denominator, t.deltaX, t.deltaY);
    }
  }

  /** With a share of one half or more there is a pool, on a whole scale and above its
      baseline, whose baseline falls from 559 when profit is taken. */
  lemma HalfShareLowersBaseline(f: PnlFee)
    requires f.Valid() && f.denominator <= 2 * f.numerator
    ensures var s := Scale(0, 0, 1, 1, 1, 1);
      && OnOrAboveBaseline(s, f, 13, 43, 20, 31, 20, 31)
      && CalcTakePnl(s, f, 13, 43, 20, 31, 20, 31).Success?
      && var t := CalcTakePnl(s, f, 13, 43, 20, 31, 20, 31).value;
         t.deltaX <= 20 && t.deltaY <= 31 && (20 - t.deltaX) * (31 - t.deltaY) < 13 * 43
  {
    ExampleTaking(f);
    var t := CalcTakePnl(Scale(0, 0, 1, 1, 1, 1), f, 13, 43, 20, 31, 20, 31).value;
    assert Pow10(0) == 1;
    MulMono(31 - t.deltaY, 29, 19);
  }

  lemma ExampleTaking(f: PnlFee)
    requires f.Valid() && f.denominator <= 2 * f.numerator
    ensures var r := CalcTakePnl(Scale(0, 0, 1, 1, 1, 1), f, 13, 43, 20, 31, 20, 31);
      r.Success? && r.value.deltaX == 1 && 2 <= r.value.deltaY <= 3
  {
    OldCurveOfExample();
    SharesOfExample(f);
    assert Pow10(0) == 1;
    assert Restore(13, 0, 1) == Success(13) && Restore(43, 0, 1) == Success(43);
  }

  lemma OldCurveOfExample()
    ensures OnOldCurve(13, 43, 20, 31) == Success((18, 27))
  {
    assert (559 * 20) / 31 == 360;
    SqrtUnique(18, 360);
  }

  lemma SharesOfExample(f: PnlFee)
    requires f.Valid() && f.denominator <= 2 * f.numerator
    ensures SideCut(2, 0, 1, f) == Success((1, 2, 1))
    ensures var r := SideCut(4, 0, 1, f);
      r.Success? && 2 <= r.value.0 <= 3 && r.value.1 == 4 && r.value.2 == r.value.0
  {
    var n: nat, d: nat := f.numerator, f.denominator;
    DivAtLeast(2 * n, d, 1);
    DivBelow(2 * n, d, 2);
    DivAtLeast(4 * n, d, 2);
    DivBelow(4 * n, d, 4);
    assert Restore(2, 0, 1) == Success(2) && Restore(4, 0, 1) == Success(4);
  }

  /** One taking leaves the baseline no lower than it found it. */
  ghost predicate KeepsBaseline(
    s: Scale, f: PnlFee, calcX: u128, calcY: u128, pc: u64, coin: u64, x1: u128, y1: u128)
  {
    CoversUnits(s) && calcX * calcY <= x1 * y1
    && CalcTakePnl(s, f, calcX, calcY, pc, coin, x1, y1).Success?
    ==> var t := CalcTakePnl(s, f, calcX, calcY, pc, coin, x1, y1).value;
        && t.deltaX <= x1 && t.deltaY <= y1
        && calcX * calcY <= (x1 - t.deltaX) * (y1 - t.deltaY)
  }

  /** The shares under which no taking ever lowers a baseline are exactly those below
      one half; the default is 12 in 100. */
  lemma BaselineSafeIffShareBelowHalf(f: PnlFee)
    requires f.Valid()
    ensures (forall s: Scale, calcX: u128, calcY: u128, pc: u64, coin: u64, x1: u128, y1: u128 ::
               KeepsBaseline(s, f, calcX, calcY, pc, coin, x1, y1))
      <==> 2 * f.numerator < f.denominator
  {
    if 2 * f.numerator < f.denominator {
      forall s: Scale, calcX: u128, calcY: u128, pc: u64, coin: u64, x1: u128, y1: u128 {
        BelowHalfKeeps(s, f, calcX, calcY, pc, coin, x1, y1);
      }
    } else {
      HalfDoesNotKeep(f, Scale(0, 0, 1, 1, 1, 1), 13, 43, 20, 31);
    }
  }

  lemma BelowHalfKeeps(
    s: Scale, f: PnlFee, calcX: u128, calcY: u128, pc: u64, coin: u64, x1: u128, y1: u128)
    requires f.Valid() && 2 * f.numerator < f.denominator
    ensures KeepsBaseline(s, f, calcX, calcY, pc, coin, x1, y1)
  {
    if CoversUnits(s) && calcX * calcY <= x1 * y1
      && CalcTakePnl(s, f, calcX, calcY, pc, coin, x1, y1).Success? {
      TakingNeverLowersBaseline(s, f, calcX, calcY, pc, coin, x1, y1);
    }
  }

  lemma HalfDoesNotKeep(f: PnlFee, s: Scale, calcX: u128, calcY: u128, pc: u64, coin: u64)
    requires f.Valid() && f.denominator <= 2 * f.numerator
    requires s == Scale(0, 0, 1, 1, 1, 1) && calcX == 13 && calcY == 43 && pc == 20 && coin == 31
    ensures !KeepsBaseline(s, f, calcX, calcY, pc, coin, pc, coin)
  {
    hide Pnl.CalcTakePnl;
    HalfShareLowersBaseline(f);
  }
}
