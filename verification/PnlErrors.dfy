/** Exactly when taking profit fails, on every scale and below the baseline too. */
module PnlErrors {
  import opened Checked
  import opened Arith
  import opened Decimals
  import opened Pnl
  import opened PoolLedger
  import opened Solvency

  // ---- The guard ----

  /** The baseline can be read back into native units. */
  predicate RecordedFits(s: Scale, calcX: u128, calcY: u128) {
    calcX * Pow10(s.pcDecimals) < U128_LIMIT && calcY * Pow10(s.coinDecimals) < U128_LIMIT
  }

  /** The product of the baseline in native units. */
  function RecordedProduct(s: Scale, calcX: u128, calcY: u128): nat
    requires 0 < s.sysDecimalValue
  {
    Restored(calcX, Pow10(s.pcDecimals), s.sysDecimalValue)
    * Restored(calcY, Pow10(s.coinDecimals), s.sysDecimalValue)
  }

  /** The guard passes, reports its error, or overflows; its own product always fits. */
  lemma GuardIs(s: Scale, calcX: u128, calcY: u128, pc: u64, coin: u64)
    requires CoversUnits(s)
    ensures 0 < s.sysDecimalValue
    ensures var product := RecordedProduct(s, calcX, calcY);
      Guard(s, calcX, calcY, pc, coin) ==
        if !RecordedFits(s, calcX, calcY) then Failure(Overflow)
        else if product <= pc * coin then Success(())
        else if product < U128_LIMIT then Failure(CalcPnlError)
        else Failure(Overflow)
  {
    MulMono2(pc, coin, U64_LIMIT - 1, U64_LIMIT - 1);
    RestoreIs(calcX, s.pcDecimals, s.sysDecimalValue);
    RestoreIs(calcY, s.coinDecimals, s.sysDecimalValue);
    hide Restore, Restored, Pow10;
  }

  lemma RestoreIs(v: u128, decimals: u8, sys: u64)
    requires Pow10(decimals) <= sys
    ensures Restore(v, decimals, sys) ==
      if v * Pow10(decimals) < U128_LIMIT then Success(Restored(v, Pow10(decimals), sys)) else Failure(Overflow)
  {
    hide Pow10;
    if v * Pow10(decimals) < U128_LIMIT {
      QuotientIsSmaller(v * Pow10(decimals), sys);
    }
  }

  // ---- The recorded curve ----

  lemma RootExceedsIff(n: nat, y: nat, x: nat)
    requires 0 < y
    ensures x < Sqrt(n / y) <==> ((x + 1) * (x + 1)) * y <= n
  {
    hide Sqrt;
    var r, square := Sqrt(n / y), (x + 1) * (x + 1);
    if square * y <= n {
      DivAtLeast(n, y, square);
      if r <= x {
        MulMono2(r + 1, r + 1, x + 1, x + 1);
      }
    } else {
      DivBelow(n, y, square);
      if x < r {
        MulMono2(x + 1, x + 1, r, r);
      }
    }
  }

  /** Only the radicand can be too wide: the root of 256 bits has 128, and so its product
      with a reading fits again. */
  lemma OldCurveIs(calcX: u128, calcY: u128, x: u128, y: u128)
    requires 0 < x && 0 < y
    ensures var n := (calcX * calcY) * x;
      OnOldCurve(calcX, calcY, x, y) ==
        if n < U256_LIMIT then Success((Sqrt(n / y), (Sqrt(n / y) * y) / x)) else Failure(Overflow)
  {
    hide Sqrt;
    var n := (calcX * calcY) * x;
    MulMono2(calcX, calcY, U128_LIMIT - 1, U128_LIMIT - 1);
    if n < U256_LIMIT {
      QuotientIsSmaller(n, y);
      var root := Sqrt(n / y);
      if U128_LIMIT <= root {
        MulMono2(U128_LIMIT, U128_LIMIT, root, root);
      }
      MulMono2(root, y, U128_LIMIT - 1, U128_LIMIT - 1);
    }
  }

  /** The root of the recorded curve lies past the reading, by more than its floor hides. */
  predicate RunsPast(calcX: u128, calcY: u128, x: nat, y: nat) {
    && (calcX * calcY) * x < U256_LIMIT
    && ((x + 1) * (x + 1)) * y <= (calcX * calcY) * x
  }

  lemma ProfitUnderflowsIff(calcX: u128, calcY: u128, x: u128, y: u128)
    requires 0 < x && 0 < y
    ensures var r := Profit(calcX, calcY, x, y);
      && (r == Failure(Underflow) <==> RunsPast(calcX, calcY, x, y))
      && (r.Failure? ==> r.error in {Underflow, Overflow})
      && (r.Success? ==> r.value.0 <= x && r.value.1 <= y)
  {
    var n := (calcX * calcY) * x;
    OldCurveIs(calcX, calcY, x, y);
    RootExceedsIff(n, y, x);
    hide Sqrt, OnOldCurve;
    if Sqrt(n / y) <= x {
      Proportion(Sqrt(n / y), x, y);
    }
  }

  // ---- The whole computation ----

  /** Reserves and their readings in a base that covers both units; nothing about the
      baseline. */
  ghost predicate ReadsReserves(s: Scale, f: PnlFee, pc: u64, coin: u64, x1: u128, y1: u128) {
    && f.Valid()
    && 0 < pc && 0 < coin
    && CoversUnits(s)
    && x1 == Normalized(pc, Pow10(s.pcDecimals), s.sysDecimalValue)
    && y1 == Normalized(coin, Pow10(s.coinDecimals), s.sysDecimalValue)
  }

  /** Taking profit reports its error exactly when the native guard compares false, and
      underflows exactly when the guard passes and the curve still runs past the readings;
      anything else that stops it is integer width. */
  lemma TakingFailsIff(
    s: Scale, f: PnlFee, calcX: u128, calcY: u128, pc: u64, coin: u64, x1: u128, y1: u128)
    requires ReadsReserves(s, f, pc, coin, x1, y1)
    ensures 0 < s.sysDecimalValue
    ensures var r, product := CalcTakePnl(s, f, calcX, calcY, pc, coin, x1, y1), RecordedProduct(s, calcX, calcY);
      && (r == Failure(CalcPnlError) <==> RecordedFits(s, calcX, calcY) && pc * coin < product < U128_LIMIT)
      && (r == Failure(Underflow) <==>
            RecordedFits(s, calcX, calcY) && product <= pc * coin && RunsPast(calcX, calcY, x1, y1))
      && (r.Failure? ==> r.error in {CalcPnlError, Underflow, Overflow})
  {
    GuardIs(s, calcX, calcY, pc, coin);
    MulMono2(pc, coin, U64_LIMIT - 1, U64_LIMIT - 1);
    IsSeen(pc, Pow10(s.pcDecimals), s.sysDecimalValue);
    IsSeen(coin, Pow10(s.coinDecimals), s.sysDecimalValue);
    ProfitUnderflowsIff(calcX, calcY, x1, y1);
    hide Guard, Profit, Cut, Normalized, RunsPast, RecordedFits, RecordedProduct;
    var profit := Profit(calcX, calcY, x1, y1);
    if profit.Success? {
      CutOnlyOverflows(s, f, pc, coin, profit.value.0, profit.value.1);
    }
  }

  // ---- On the ledger ----

  /** The reserves of a sound ledger always have readings. */
  lemma ReservesAreRead(l: Ledger)
    requires Sound(l)
    ensures Totals(l) == Success((PcReserve(l), CoinReserve(l)))
    ensures ReserveX(l) < U128_LIMIT && ReserveY(l) < U128_LIMIT
    ensures Normalize(PcReserve(l), l.scale.pcDecimals, l.scale.sysDecimalValue) == Success(ReserveX(l))
    ensures Normalize(CoinReserve(l), l.scale.coinDecimals, l.scale.sysDecimalValue) == Success(ReserveY(l))
    ensures ReadsReserves(l.scale, l.fees.Pnl(), PcReserve(l), CoinReserve(l), ReserveX(l), ReserveY(l))
  {
    InitScaleCoversUnits(l.scale.coinDecimals, l.scale.pcDecimals, l.scale.coinLotSize, l.marketPcLot);
    hide InitScale, Pow10, Normalize, Normalized;
    NormalizeFits(PcReserve(l), l.scale.pcDecimals, l.scale.sysDecimalValue);
    NormalizeFits(CoinReserve(l), l.scale.coinDecimals, l.scale.sysDecimalValue);
  }

  /** The native product lies below the baseline's. */
  predicate GuardFails(l: Ledger)
    requires Solvent(l) && 0 < l.scale.sysDecimalValue
  {
    && RecordedFits(l.scale, l.calcX, l.calcY)
    && PcReserve(l) * CoinReserve(l) < RecordedProduct(l.scale, l.calcX, l.calcY) < U128_LIMIT
  }

  /** The native product covers the baseline's, but the readings lie below the curve by
      more than the root's floor hides. */
  predicate CurveRunsPast(l: Ledger)
    requires Solvent(l) && 0 < l.scale.sysDecimalValue
  {
    && RecordedFits(l.scale, l.calcX, l.calcY)
    && RecordedProduct(l.scale, l.calcX, l.calcY) <= PcReserve(l) * CoinReserve(l)
    && RunsPast(l.calcX, l.calcY, ReserveX(l), ReserveY(l))
  }

  /** Booking a taking adds only widths to what can stop it. */
  lemma LedgerTakingFailsIff(l: Ledger)
    requires Sound(l)
    ensures 0 < l.scale.sysDecimalValue
    ensures var r := TakePnl(l, PcReserve(l), CoinReserve(l));
      && (r == Failure(CalcPnlError) <==> GuardFails(l))
      && (r == Failure(Underflow) <==> CurveRunsPast(l))
      && (r.Failure? ==> r.error in {CalcPnlError, Underflow, Overflow})
  {
    ReservesAreRead(l);
    TakingFailsIff(
      l.scale, l.fees.Pnl(), l.calcX, l.calcY, PcReserve(l), CoinReserve(l), ReserveX(l), ReserveY(l));
    hide CalcTakePnl, Normalize, Normalized, RunsPast, RecordedFits, RecordedProduct, InitScale;
  }
}
