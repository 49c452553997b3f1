/** A fractional market at work: a swap, a move, a profit payout, a deposit and a withdrawal
    that each leave a pool's readings below its baseline. */
module FractionalCases {
  import opened Checked
  import opened Arith
  import opened CeilDiv
  import opened Curve
  import opened Decimals
  import opened Pnl
  import opened State
  import opened PoolLedger
  import opened Solvency
  import opened PnlErrors
  import opened Vaults
  import opened Runs

  // ---- A withdrawal ----

  /** Fifteen pc units of no decimals and ten coin units of one, on a market whose lot
      ratio overrides the base with 15: one coin unit reads as one and a half. */
  const FRACTIONAL: Creation := Creation(15, 10, 1, 0, 150, 1, 0, 0)

  /** That pool with the given vaults, LP and baseline. */
  predicate IsFractional(l: Ledger, pc: u64, coin: u64, lp: u64, x: u128, y: u128) {
    && l.status == SwapOnly
    && l.scale == Scale(1, 0, 15, 225, 150, 1) && l.fees == DEFAULT_FEES
    && l.pcVault == pc && l.coinVault == coin && l.needPc == 0 && l.needCoin == 0
    && l.lpAmount == lp && l.lpSupply + 10 == lp
    && l.calcX == x && l.calcY == y
  }

  lemma FractionalCreation(c: Creation)
    requires c == FRACTIONAL
    ensures Create(c).Success? && IsFractional(Create(c).value, 15, 10, 12, 225, 15)
    ensures Create(c).value.swaps == NO_SWAPS
  {
    FractionalScale(c.coinDecimals, c.pcDecimals, c.coinLot, c.pcLot);
    FractionalReading(c.pcVault, c.pcDecimals);
    FractionalReading(c.coinVault, c.coinDecimals);
    SqrtUnique(12, c.pcVault * c.coinVault);
    assert Pow10(1) == 10;
    hide InitScale, Normalize, Sqrt;
  }

  lemma FractionalScale(coinDecimals: u8, pcDecimals: u8, coinLot: u64, pcLot: u64)
    requires coinDecimals == 1 && pcDecimals == 0 && coinLot == 150 && pcLot == 1
    ensures InitScale(coinDecimals, pcDecimals, coinLot, pcLot) == Success(Scale(1, 0, 15, 225, 150, 1))
  {
    assert Pow10(0) == 1 && Pow10(1) == 10;
  }

  lemma FractionalReading(v: u64, decimals: u8)
    requires decimals <= 1
    ensures Normalize(v, decimals, 15) == Success(if decimals == 0 then 15 * v else (15 * v) / 10)
  {
    assert Pow10(0) == 1 && Pow10(1) == 10;
  }

  /** Straight after creation there is no profit to take. */
  lemma FractionalTaking(l: Ledger)
    requires IsFractional(l, 15, 10, 12, 225, 15)
    ensures CalcTakePnl(l.scale, l.fees.Pnl(), l.calcX, l.calcY, l.pcVault, l.coinVault, l.calcX, l.calcY)
      == Success(Taking(0, 0, 0, 0, 0, 0, 15, 10))
  {
    var power := ((l.calcX * l.calcY) * l.calcX) / l.calcY;
    assert power == 50625;
    SqrtUnique(225, power);
    assert Pow10(0) == 1 && Pow10(1) == 10;
  }

  /** Two LP of the twelve withdraw two pc units and one coin unit. */
  lemma FractionalWithdrawal(l: Ledger, amount: u64, userLp: u64)
    requires IsFractional(l, 15, 10, 12, 225, 15) && amount == 2 <= userLp
    ensures var r := Withdraw(l, amount, None, None, userLp);
      r.Success? && IsFractional(r.value, 13, 9, 10, 195, 14)
  {
    hide Pnl.CalcTakePnl, Decimals.Normalize;
    FractionalTaking(l);
    FractionalReading(l.pcVault, l.scale.pcDecimals);
    FractionalReading(l.coinVault, l.scale.coinDecimals);
    FractionalReading(2, l.scale.pcDecimals);
    FractionalReading(1, l.scale.coinDecimals);
  }

  /** The native products agree, so the guard passes; the curve runs seven past the reading. */
  lemma FractionalUnderflow(l: Ledger)
    requires Sound(l) && IsFractional(l, 13, 9, 10, 195, 14)
    ensures ReserveX(l) * ReserveY(l) < l.calcX * l.calcY
    ensures TakePnl(l, PcReserve(l), CoinReserve(l)) == Failure(Underflow)
  {
    hide TakePnl, InitScale;
    assert Pow10(0) == 1 && Pow10(1) == 10;
    assert ReserveX(l) == 195 && ReserveY(l) == 13;
    assert RecordedProduct(l.scale, l.calcX, l.calcY) == 117;
    LedgerTakingFailsIff(l);
  }

  /** Withdrawing two of that pool's LP leaves a recorded baseline above the reserves,
      and the next profit computation underflows. */
  lemma FractionalScaleUnderflows(c: Creation, amount: u64, userLp: u64)
    requires c == FRACTIONAL && amount == 2 <= userLp
    ensures Create(c).Success?
    ensures Withdraw(Create(c).value, amount, None, None, userLp).Success?
    ensures var m := Withdraw(Create(c).value, amount, None, None, userLp).value;
      && Solvent(m) && ReserveX(m) * ReserveY(m) < m.calcX * m.calcY
      && TakePnl(m, PcReserve(m), CoinReserve(m)) == Failure(Underflow)
  {
    hide Create, Withdraw, TakePnl, InitScale, ReserveX, ReserveY;
    FractionalCreation(c);
    var l := Create(c).value;
    assert Created(l);
    CreatedIsSound(l);
    FractionalWithdrawal(l, amount, userLp);
    WithdrawKeepsSound(l, amount, None, None, userLp);
    FractionalUnderflow(Withdraw(l, amount, None, None, userLp).value);
  }
  // ---- A swap, and a move after a swap ----

  /** One coin unit buys one of that pool's pc units; its fee rounds to nothing. */
  lemma FractionalSwap(l: Ledger, amountIn: u64)
    requires IsFractional(l, 15, 10, 12, 225, 15) && l.swaps == NO_SWAPS && amountIn == 1
    ensures var r := SwapIn(l, Coin2PC, amountIn, 0, amountIn, 0);
      r.Success? && IsFractional(r.value, 14, 11, 12, 225, 15)
  {
    var rIn: u64, rOut: u64 := 10, 15;
    assert BaseInWithFee(amountIn, rIn, rOut, DEFAULT_FEES.Swap()) == Success((1, 0));
    hide BaseInWithFee;
  }

  /** A swap alone can put the readings below the baseline, 3360 under 3375, although the
      native product rose; and below the baseline a taking need not fail, as the root's
      floor hides the difference. */
  lemma FractionalSwapUncovers(c: Creation, amountIn: u64)
    requires c == FRACTIONAL && amountIn == 1
    ensures Create(c).Success?
    ensures SwapIn(Create(c).value, Coin2PC, amountIn, 0, amountIn, 0).Success?
    ensures var m := SwapIn(Create(c).value, Coin2PC, amountIn, 0, amountIn, 0).value;
      && !Covered(m) && Sound(m) && 0 < m.scale.sysDecimalValue
      && !GuardFails(m) && !CurveRunsPast(m)
  {
    hide Create, SwapIn, InitScale, WellKept;
    FractionalCreation(c);
    var l := Create(c).value;
    assert Created(l);
    CreatedIsSound(l);
    FractionalSwap(l, amountIn);
    SwapKeepsSound(l, DoSwapIn(Coin2PC, amountIn, 0, amountIn, 0));
    assert Pow10(0) == 1 && Pow10(1) == 10;
    var m := SwapIn(l, Coin2PC, amountIn, 0, amountIn, 0).value;
    assert ReserveX(m) == 210 && ReserveY(m) == 16;
    assert RecordedProduct(m.scale, m.calcX, m.calcY) == 150;
  }

  /** A pool on a market with a whole scale, where a swap leaves the readings covered, is
      moved to the fractional one: the same units now read below the baseline. */
  const MOVING: Creation := Creation(15, 10, 1, 0, 10, 1, 0, 0)

  predicate IsWhole(l: Ledger, pc: u64, coin: u64) {
    && l.status == SwapOnly
    && l.scale == Scale(1, 0, 10, 10, 10, 10) && l.fees == DEFAULT_FEES && l.marketPcLot == 1
    && l.pcVault == pc && l.coinVault == coin && l.needPc == 0 && l.needCoin == 0
    && l.calcX == 150 && l.calcY == 10
  }

  lemma MovingCreation(c: Creation)
    requires c == MOVING
    ensures Create(c).Success? && IsWhole(Create(c).value, 15, 10)
    ensures Create(c).value.swaps == NO_SWAPS
  {
    assert Pow10(0) == 1 && Pow10(1) == 10;
    SqrtUnique(12, c.pcVault * c.coinVault);
  }

  lemma MovingSwap(l: Ledger, amountIn: u64)
    requires IsWhole(l, 15, 10) && l.swaps == NO_SWAPS && amountIn == 1
    ensures var r := SwapIn(l, Coin2PC, amountIn, 0, amountIn, 0); r.Success? && IsWhole(r.value, 14, 11)
  {
    var rIn: u64, rOut: u64 := 10, 15;
    assert BaseInWithFee(amountIn, rIn, rOut, DEFAULT_FEES.Swap()) == Success((1, 0));
    hide BaseInWithFee;
  }

  lemma FractionalMoveUncovers(c: Creation, amountIn: u64, coinLot: u64)
    requires c == MOVING && amountIn == 1 && coinLot == 150
    ensures Create(c).Success?
    ensures SwapIn(Create(c).value, Coin2PC, amountIn, 0, amountIn, 0).Success?
    ensures var m := SwapIn(Create(c).value, Coin2PC, amountIn, 0, amountIn, 0).value;
      Covered(m) && Migrate(m, coinLot, 1).Success? && !Covered(Migrate(m, coinLot, 1).value)
  {
    hide Create, SwapIn;
    MovingCreation(c);
    MovingSwap(Create(c).value, amountIn);
    assert Pow10(0) == 1 && Pow10(1) == 10;
    var m := SwapIn(Create(c).value, Coin2PC, amountIn, 0, amountIn, 0).value;
    assert Covered(m);
    MovedPool(m, coinLot);
  }

  lemma MovedPool(l: Ledger, coinLot: u64)
    requires IsWhole(l, 14, 11) && coinLot == 150
    ensures var r := Migrate(l, coinLot, 1); r.Success? && !Covered(r.value)
  {
    assert Pow10(0) == 1 && Pow10(1) == 10;
    var r := Migrate(l, coinLot, 1);
    assert r.Success? && r.value.calcX == 225 && r.value.calcY == 15;
    assert r.value.scale == Scale(1, 0, 15, 225, 150, 1);
    assert ReserveX(r.value) == 210 && ReserveY(r.value) == 16;
  }

  // ---- Taking profit, and then a payout or a deposit ----

  /** Five pc units and twenty coin units on the fractional market; fourteen pc units are
      sent. */
  const GROWING: Creation := Creation(5, 20, 1, 0, 150, 1, 0, 0)

  lemma GrowingCreation(c: Creation)
    requires c == GROWING
    ensures Create(c).Success? && IsFractional(Create(c).value, 5, 20, 10, 75, 30)
    ensures var l := Create(c).value; l.totalPnlPc == 0 && l.totalPnlCoin == 0
  {
    FractionalScale(c.coinDecimals, c.pcDecimals, c.coinLot, c.pcLot);
    FractionalReading(c.pcVault, c.pcDecimals);
    FractionalReading(c.coinVault, c.coinDecimals);
    SqrtUnique(10, c.pcVault * c.coinVault);
    assert Pow10(1) == 10;
    hide InitScale, Normalize, Sqrt;
  }

  lemma GrowingGift(c: Creation)
    requires c == GROWING
    ensures Create(c).Success?
    ensures var m := Exec(Create(c).value, Donate(14, 0));
      IsFractional(m, 19, 20, 10, 75, 30) && m.totalPnlPc == 0 && m.totalPnlCoin == 0
  {
    hide Create;
    GrowingCreation(c);
  }

  lemma GrowingCurve(calcX: u128, calcY: u128, x: u128, y: u128)
    requires calcX == 75 && calcY == 30 && x == 285 && y == 30
    ensures OnOldCurve(calcX, calcY, x, y) == Success((146, 15))
  {
    var power := ((calcX * calcY) * x) / y;
    assert power == 21375;
    SqrtUnique(146, power);
  }

  /** The coin cut is worth one and a half normalised units and recorded as one. */
  lemma GrowingCuts(diffX: u128, diffY: u128, sys: u64, f: PnlFee)
    requires diffX == 139 && diffY == 15 && sys == 15 && f == PnlFee(12, 100)
    ensures SideCut(diffX, 0, sys, f) == Success((16, 9, 1))
    ensures SideCut(diffY, 1, sys, f) == Success((1, 10, 1))
  {
    assert Pow10(0) == 1 && Pow10(1) == 10;
  }

  lemma GrowingGuard(l: Ledger)
    requires IsFractional(l, 19, 20, 10, 75, 30)
    ensures Guard(l.scale, l.calcX, l.calcY, l.pcVault, l.coinVault).Success?
  {
    assert Pow10(0) == 1 && Pow10(1) == 10;
  }

  lemma GrowingTaking(l: Ledger, x: u128, y: u128)
    requires IsFractional(l, 19, 20, 10, 75, 30) && x == 285 && y == 30
    ensures CalcTakePnl(l.scale, l.fees.Pnl(), l.calcX, l.calcY, l.pcVault, l.coinVault, x, y)
      == Success(Taking(16, 1, 9, 10, 1, 1, 18, 19))
  {
    GrowingGuard(l);
    GrowingCurve(l.calcX, l.calcY, x, y);
    GrowingCuts(139, 15, l.scale.sysDecimalValue, l.fees.Pnl());
    hide Guard, OnOldCurve, SideCut, Pow10;
  }

  lemma GrowingTaken(l: Ledger)
    requires IsFractional(l, 19, 20, 10, 75, 30) && l.totalPnlPc == 0 && l.totalPnlCoin == 0
    ensures var r := TakePnl(l, l.pcVault, l.coinVault);
      && r.Success? && r.value.x1 == 285 && r.value.y1 == 30
      && r.value.t == Taking(16, 1, 9, 10, 1, 1, 18, 19)
      && r.value.ledger == l.(totalPnlPc := 9, totalPnlCoin := 10, needPc := 1, needCoin := 1)
  {
    hide CalcTakePnl, Normalize;
    FractionalReading(l.pcVault, l.scale.pcDecimals);
    FractionalReading(l.coinVault, l.scale.coinDecimals);
    GrowingTaking(l, 285, 30);
  }

  /** Paying out the profit leaves 18 pc and 19 coin units, reading 270 and 28, under a
      baseline of 269 and 29. */
  lemma FractionalPayoutUncovers(c: Creation)
    requires c == GROWING
    ensures Create(c).Success?
    ensures var m := Exec(Create(c).value, Donate(14, 0));
      Covered(m) && WithdrawPnl(m).Success? && !Covered(WithdrawPnl(m).value)
  {
    hide Create, Exec, TakePnl, Normalize;
    GrowingGift(c);
    var m := Exec(Create(c).value, Donate(14, 0));
    GrowingTaken(m);
    assert Pow10(0) == 1 && Pow10(1) == 10;
    var paid := WithdrawPnl(m).value;
    assert ReserveX(paid) == 270 && ReserveY(paid) == 28;
  }

  /** Depositing two units a side instead leaves 20 pc and 21 coin units, reading 300 and 31,
      under a baseline of 299 and 32. */
  lemma FractionalDepositUncovers(c: Creation, amount: u64)
    requires c == GROWING && amount == 2
    ensures Create(c).Success?
    ensures var m := Exec(Create(c).value, Donate(14, 0));
      var r := Deposit(m, amount, amount, 0, None, amount, amount);
      Covered(m) && r.Success? && !Covered(r.value)
  {
    hide Create, Exec, TakePnl, Normalize, DepositAmounts;
    GrowingGift(c);
    var m := Exec(Create(c).value, Donate(14, 0));
    GrowingTaken(m);
    GrowingAmounts(18, 19, 10, amount);
    FractionalReading(amount, 0);
    FractionalReading(amount, 1);
    assert Pow10(0) == 1 && Pow10(1) == 10;
    var grown := Deposit(m, amount, amount, 0, None, amount, amount).value;
    assert ReserveX(grown) == 300 && ReserveY(grown) == 31;
  }

  lemma GrowingAmounts(pc: u64, coin: u64, lp: u64, amount: u64)
    requires pc == 18 && coin == 19 && lp == 10 && amount == 2
    ensures DepositAmounts(pc, coin, lp, amount, amount, true, None) == Success((2, 2, 1))
  {
    assert CheckedCeilDiv(amount * pc, coin).Success? && CheckedCeilDiv(amount * pc, coin).value.0 == 2;
  }
}
