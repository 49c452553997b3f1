/** What holds of every pool, however long it has been traded. */
module Runs {
  import opened Checked
  import opened Arith
  import opened Decimals
  import opened Pnl
  import opened State
  import opened PoolLedger
  import opened Solvency
  import opened PnlErrors
  import opened Vaults

  datatype Creation = Creation(
    pcVault: u64, coinVault: u64, coinDecimals: u8, pcDecimals: u8,
    coinLot: u64, pcLot: u64, openTime: u64, now: u64)

  function Create(c: Creation): Result<Ledger> {
    Initialize2(c.pcVault, c.coinVault, c.coinDecimals, c.pcDecimals,
                c.coinLot, c.pcLot, c.openTime, c.now)
  }

  /** The ledger some pool was created with. */
  ghost predicate Created(l: Ledger) {
    exists c: Creation :: Create(c) == Success(l)
  }

  lemma CreatedIsKept(l: Ledger)
    requires Created(l)
    ensures Inv(l)
  {
    var c: Creation :| Create(c) == Success(l);
    Initialize2Establishes(c.pcVault, c.coinVault, c.coinDecimals, c.pcDecimals,
                           c.coinLot, c.pcLot, c.openTime, c.now);
  }

  /** Solvency over every run, on every market: after any instructions, donations and
      burns, each vault strictly exceeds what is set aside, and LP accounting stays ahead
      of the mint by the locked LP, so that even with every LP token redeemed something
      is left. */
  lemma EveryRunIsSolvent(l: Ledger, steps: seq<Step>)
    requires Created(l)
    ensures var m := Run(l, steps);
      && Solvent(m)
      && 0 < PcReserve(m) && 0 < CoinReserve(m)
      && m.lpSupply + Pow10(m.scale.coinDecimals) <= m.lpAmount
      && (m.lpSupply == 0 ==> 0 < m.lpAmount)
  {
    CreatedIsKept(l);
    RunKeepsSound(l, steps);
  }

  /** And so the profit error is out of reach of paying out profit and of withdrawing. */
  lemma EveryRunCanPayProfit(
    l: Ledger, steps: seq<Step>, amount: u64, minCoin: Option<u64>, minPc: Option<u64>, userLp: u64)
    requires Created(l)
    ensures var m := Run(l, steps);
      && WithdrawPnl(m) != Failure(TakePnlError)
      && Withdraw(m, amount, minCoin, minPc, userLp) != Failure(TakePnlError)
  {
    hide Solvency.Run, Sound, WithdrawPnl, Withdraw;
    CreatedIsSound(l);
    RunKeepsSound(l, steps);
    ProfitIsAlwaysPayable(Run(l, steps), amount, minCoin, minPc, userLp);
  }

  lemma CreatedIsSound(l: Ledger)
    requires Created(l)
    ensures Sound(l)
  {
    CreatedIsKept(l);
  }

  /** On whole scales the normalised reserves of every reachable ledger cover the
      recorded baseline. */
  lemma EveryRunCoversBaseline(l: Ledger, steps: seq<Step>)
    requires Created(l) && IntegerRun(l, steps)
    ensures Covered(Run(l, steps))
  {
    CreatedIsKept(l);
    RunKeepsInv(l, steps);
  }

  ghost predicate Covered(l: Ledger) {
    Solvent(l) && l.calcX * l.calcY <= ReserveX(l) * ReserveY(l)
  }

  /** On every reachable ledger of every market, taking profit reports its error exactly
      when the native guard compares false, underflows exactly when the recorded curve runs
      past the readings, and is otherwise stopped only by integer width; on whole scales
      that alone remains. */
  lemma EveryRunCanTakePnl(l: Ledger, steps: seq<Step>)
    requires Created(l)
    ensures var m := Run(l, steps);
      && Solvent(m) && 0 < m.scale.sysDecimalValue
      && var r := TakePnl(m, PcReserve(m), CoinReserve(m));
      && (r == Failure(CalcPnlError) <==> GuardFails(m))
      && (r == Failure(Underflow) <==> CurveRunsPast(m))
      && (r.Failure? ==> r.error in {CalcPnlError, Underflow, Overflow})
      && (r.Failure? && IntegerRun(l, steps) ==> r.error == Overflow)
  {
    hide Solvency.Run, TakePnl, GuardFails, CurveRunsPast;
    CreatedIsKept(l);
    RunKeepsSound(l, steps);
    LedgerTakingFailsIff(Run(l, steps));
    if IntegerRun(l, steps) {
      RunKeepsInv(l, steps);
      TakePnlSafe(Run(l, steps));
    }
  }

  // ---- Errors that cannot happen ----

  /** A payout of part of a reserve always fits, and never empties it. */
  lemma PayoutFits(left: u64, amount: u64, lp: u64)
    requires 0 < left && amount < lp
    ensures ExchangeFloor(left, amount, lp).Success?
    ensures ExchangeFloor(left, amount, lp).value < left
  {
    MulMono2(left, amount, U64_LIMIT - 1, U64_LIMIT - 1);
    MulMono(amount + 1, lp, left);
    DivBelow(left * amount, lp, left);
  }

  /** The side's share that `amount` of `lp` LP is paid. */
  function PaidOut(left: u64, amount: u64, lp: u64): (out: u64)
    requires 0 < left && amount < lp
    ensures ExchangeFloor(left, amount, lp) == Success(out) && out < left
  {
    PayoutFits(left, amount, lp);
    ExchangeFloor(left, amount, lp).value
  }

  /** A side is left with a single unit, and what the reading keeps of it and of the
      native cut is less than the normalised cut. */
  predicate OverrunsLastUnit(left: u64, out: u64, take: u64, decimals: u8, sys: u64, delta: u128) {
    && left - out == 1
    && Normalized(left + take, Pow10(decimals), sys) - Normalized(out, Pow10(decimals), sys) < delta
  }

  /** On a whole scale: the cut exceeds the native cut by more than the unit kept. */
  lemma OverrunOnWholeScale(left: u64, out: u64, take: u64, decimals: u8, sys: u64, delta: u128)
    requires IntegerScale(Pow10(decimals), sys) && left - out == 1
    ensures OverrunsLastUnit(left, out, take, decimals, sys, delta)
      <==> (take + 1) * (sys / Pow10(decimals)) < delta
  {
    IntegerScaleIsExact(left + take, Pow10(decimals), sys);
    IntegerScaleIsExact(out, Pow10(decimals), sys);
    Distribute(left + take, out, sys / Pow10(decimals));
  }

  /** The new baseline of one side after a payout fails in exactly that case. */
  lemma BaselineDownFailsIff(
    total: u64, left: u64, take: u64, out: u64, decimals: u8, sys: u64, reading: u128, delta: u128)
    requires out < left && left + take == total
    requires Normalize(total, decimals, sys) == Success(reading)
    requires delta <= Normalized(take + 2, Pow10(decimals), sys)
    ensures var down := BaselineDown(reading, out, decimals, sys, delta);
      && (down.Failure? <==> OverrunsLastUnit(left, out, take, decimals, sys, delta))
      && (down.Failure? ==> down.error == Underflow)
  {
    hide Normalized, Pow10;
    var unit := Pow10(decimals);
    MulMono(out, total, sys);
    NormalizedMono(out, total, unit, sys);
    if left - out >= 2 {
      NormalizedSum(total - out, out, unit, sys);
      NormalizedMono(take + 2, total - out, unit, sys);
    }
  }

  /** Paying out the protocol's profit fails exactly when its taking does, with the same
      error, whatever the scale; where the baseline is covered that is an overflow. */
  lemma WithdrawPnlErrors(l: Ledger)
    requires Sound(l)
    ensures var r, taken := WithdrawPnl(l), TakePnl(l, PcReserve(l), CoinReserve(l));
      && (r.Failure? <==> taken.Failure?)
      && (r.Failure? ==> r.error == taken.error)
      && (r.Failure? && Covered(l) ==> r.error == Overflow)
  {
    hide TakePnl, Normalize, Normalized, InitScale, ReserveX, ReserveY;
    if TakePnl(l, PcReserve(l), CoinReserve(l)).Success? {
      TakingIsFair(l);
    } else if Covered(l) {
      CoveredTakingOverflows(l);
    }
  }

  /** Both payouts are worth something and meet the caller's minimums. */
  predicate Payable(k: Taken, amount: u64, lp: u64, minCoin: Option<u64>, minPc: Option<u64>)
    requires 0 < k.t.pcLeft && 0 < k.t.coinLeft && amount < lp
  {
    hide PoolLedger.ExchangeFloor;
    var coinOut, pcOut := PaidOut(k.t.coinLeft, amount, lp), PaidOut(k.t.pcLeft, amount, lp);
    && 0 < coinOut && 0 < pcOut
    && (minCoin.Some? && minPc.Some? ==> minCoin.value <= coinOut && minPc.value <= pcOut)
  }

  /** Paying `amount` LP out of the reserves a taking left overruns some side's last unit. */
  predicate Overruns(l: Ledger, k: Taken, amount: u64)
    requires 0 < k.t.pcLeft && 0 < k.t.coinLeft && amount < l.lpAmount
  {
    hide PoolLedger.ExchangeFloor;
    || OverrunsLastUnit(k.t.pcLeft, PaidOut(k.t.pcLeft, amount, l.lpAmount), k.t.takePc,
                        l.scale.pcDecimals, l.scale.sysDecimalValue, k.t.deltaX)
    || OverrunsLastUnit(k.t.coinLeft, PaidOut(k.t.coinLeft, amount, l.lpAmount), k.t.takeCoin,
                        l.scale.coinDecimals, l.scale.sysDecimalValue, k.t.deltaY)
  }

  /** Removing liquidity: below the caller's minimums or without value it is refused, the
      profit error is unreachable, and past those checks the baseline subtraction
      underflows exactly when the payout overruns a side's last unit. */
  lemma RemoveFailsIff(l: Ledger, k: Taken, amount: u64, minCoin: Option<u64>, minPc: Option<u64>)
    requires Solvent(l) && FairTaking(l, k)
    requires amount <= l.lpSupply && amount < l.lpAmount
    ensures var r := RemoveLiquidity(l, k, amount, minCoin, minPc);
      && (Payable(k, amount, l.lpAmount, minCoin, minPc) && 0 < amount ==> (r.Failure? <==> Overruns(l, k, amount)))
      && (r.Failure? ==> r.error in {InvalidInput, ExceededSlippage, Underflow})
      && (r.Failure? && r.error == Underflow ==> Overruns(l, k, amount))
  {
    hide Decimals.Normalize, Decimals.Normalized, PoolLedger.BaselineDown, OverrunsLastUnit, PoolLedger.ExchangeFloor;
    BaselineDownFailsIff(PcReserve(l), k.t.pcLeft, k.t.takePc, PaidOut(k.t.pcLeft, amount, l.lpAmount),
      l.scale.pcDecimals, l.scale.sysDecimalValue, k.x1, k.t.deltaX);
    BaselineDownFailsIff(CoinReserve(l), k.t.coinLeft, k.t.takeCoin, PaidOut(k.t.coinLeft, amount, l.lpAmount),
      l.scale.coinDecimals, l.scale.sysDecimalValue, k.y1, k.t.deltaY);
  }

  /** When a withdrawal goes through, on any market: given a permitted status, enough LP
      and a taking that succeeds, a payable withdrawal succeeds if and only if it does
      not overrun the last unit of a side. */
  lemma WithdrawSucceedsIff(l: Ledger, amount: u64, minCoin: Option<u64>, minPc: Option<u64>, userLp: u64)
    requires Sound(l) && l.status.WithdrawPermission()
    requires 0 < amount <= userLp && amount <= l.lpSupply && amount < l.lpAmount
    requires TakeUnlessWithdrawOnly(l, PcReserve(l), CoinReserve(l)).Success?
    ensures var k := TakeUnlessWithdrawOnly(l, PcReserve(l), CoinReserve(l)).value;
      && 0 < k.t.pcLeft && 0 < k.t.coinLeft
      && (Payable(k, amount, l.lpAmount, minCoin, minPc) ==>
            (Withdraw(l, amount, minCoin, minPc, userLp).Success? <==> !Overruns(l, k, amount)))
  {
    hide PoolLedger.TakeUnlessWithdrawOnly, PoolLedger.RemoveLiquidity, Overruns, Payable;
    assert Totals(l) == Success((PcReserve(l), CoinReserve(l)));
    WithdrawTakingIsFair(l);
    RemoveFailsIff(l, TakeUnlessWithdrawOnly(l, PcReserve(l), CoinReserve(l)).value, amount, minCoin, minPc);
  }

  /** What a withdrawal can fail with, on any market: the caller's own mistakes, an overrun
      last unit, or whatever stops its taking. */
  lemma WithdrawErrors(l: Ledger, amount: u64, minCoin: Option<u64>, minPc: Option<u64>, userLp: u64)
    requires Sound(l)
    ensures var r := Withdraw(l, amount, minCoin, minPc, userLp);
      var k := TakeUnlessWithdrawOnly(l, PcReserve(l), CoinReserve(l));
      && (r.Failure? ==>
            || r.error in {InvalidStatus, InvalidInput, InsufficientFunds, NotAllowZeroLP, ExceededSlippage}
            || k == Failure(r.error)
            || (&& r.error == Underflow && k.Success? && amount < l.lpAmount
                && 0 < k.value.t.pcLeft && 0 < k.value.t.coinLeft && Overruns(l, k.value, amount)))
      && (r.Failure? && Covered(l) ==> r.error !in {CalcPnlError, TakePnlError, CheckedSubOverflow, DivisionByZero})
  {
    hide TakeUnlessWithdrawOnly, RemoveLiquidity, Overruns, Payable, InitScale, Normalize, Normalized;
    if Covered(l) {
      CoveredTakingOverflows(l);
    }
    var k := TakeUnlessWithdrawOnly(l, PcReserve(l), CoinReserve(l));
    if k.Success? && amount <= l.lpSupply && amount < l.lpAmount {
      WithdrawTakingIsFair(l);
      RemoveFailsIff(l, k.value, amount, minCoin, minPc);
    }
    hide Covered, ReserveX, ReserveY, WellKept;
  }

  lemma CoveredTakingOverflows(l: Ledger)
    requires Sound(l) && Covered(l)
    ensures var r := TakePnl(l, PcReserve(l), CoinReserve(l)); r.Failure? ==> r.error == Overflow
    ensures var r := TakeUnlessWithdrawOnly(l, PcReserve(l), CoinReserve(l)); r.Failure? ==> r.error == Overflow
  {
    hide TakePnl;
    TakePnlSafe(l);
    ReservesAreRead(l);
  }

  lemma DepositAmountsErrors(
    pc: u64, coin: u64, lp: u64, maxCoin: u64, maxPc: u64, baseCoin: bool, otherMin: Option<u64>)
    requires 0 < pc && 0 < coin
    ensures var r := DepositAmounts(pc, coin, lp, maxCoin, maxPc, baseCoin, otherMin);
      r.Failure? ==> r.error == Overflow || r.error == ExceededSlippage
  {
  }

  lemma AddLiquidityErrors(l: Ledger, k: Taken, deductPc: u64, deductCoin: u64, mint: u64)
    requires k.t.deltaX <= k.x1 && k.t.deltaY <= k.y1
    ensures var r := AddLiquidity(l, k, deductPc, deductCoin, mint); r.Failure? ==> r.error == Overflow
  {
  }

  /** What a deposit can fail with, on any market: its status, amounts and limits, an
      overflow, or whatever stops its taking; where the baseline is covered it meets no
      profit error and no underflow. */
  lemma DepositErrors(
    l: Ledger, maxCoin: u64, maxPc: u64, baseSide: u64, otherMin: Option<u64>, userCoin: u64, userPc: u64)
    requires Sound(l)
    ensures var r := Deposit(l, maxCoin, maxPc, baseSide, otherMin, userCoin, userPc);
      var refusals := {InvalidInput, InvalidStatus, ExceededSlippage, InsufficientFunds, Overflow};
      && (r.Failure? ==> r.error in refusals || TakePnl(l, PcReserve(l), CoinReserve(l)) == Failure(r.error))
      && (r.Failure? && Covered(l) ==> r.error in refusals)
  {
    hide PoolLedger.TakePnl, PoolLedger.AddLiquidity, PoolLedger.DepositAmounts;
    if Covered(l) {
      CoveredTakingOverflows(l);
    }
    if TakePnl(l, PcReserve(l), CoinReserve(l)).Success? {
      TakingIsFair(l);
      var k := TakePnl(l, PcReserve(l), CoinReserve(l)).value;
      DepositAmountsErrors(k.t.pcLeft, k.t.coinLeft, l.lpAmount, maxCoin, maxPc, baseSide == 0, otherMin);
      var amounts := DepositAmounts(k.t.pcLeft, k.t.coinLeft, l.lpAmount, maxCoin, maxPc, baseSide == 0, otherMin);
      if amounts.Success? {
        AddLiquidityErrors(l, k, amounts.value.0, amounts.value.1, amounts.value.2);
      }
    }
  }

  // ---- A last redemption that fails ----

  /** A pool of six pc units of no decimals and 1126667 coin units of two, to which
      twenty and a million more were then sent. */
  const THIN: Creation := Creation(6, 1126667, 2, 0, 100, 1, 0, 0)

  predicate IsThin(l: Ledger, pc: u64, coin: u64) {
    && l.status == SwapOnly
    && l.scale == Scale(2, 0, 100, 100, 100, 100) && l.fees == DEFAULT_FEES
    && l.pcVault == pc && l.coinVault == coin && l.needPc == 0 && l.needCoin == 0
    && l.lpAmount == 2600 && l.lpSupply == 2500 && l.calcX == 600 && l.calcY == 1126667
    && l.totalPnlPc == 0 && l.totalPnlCoin == 0
  }

  lemma ThinCreation(c: Creation)
    requires c == THIN
    ensures Create(c).Success? && IsThin(Create(c).value, 6, 1126667)
  {
    assert Pow10(0) == 1 && Pow10(1) == 10 && Pow10(2) == 100;
    SqrtUnique(2600, c.pcVault * c.coinVault);
  }

  lemma ThinCurve(calcX: u128, calcY: u128, x: u128, y: u128)
    requires calcX == 600 && calcY == 1126667 && x == 2600 && y == 2126667
    ensures OnOldCurve(calcX, calcY, x, y) == Success((909, 743515))
  {
    var power := ((calcX * calcY) * x) / y;
    assert power == 826457;
    SqrtUnique(909, power);
  }

  lemma ThinCuts(diffX: u128, diffY: u128, sys: u64, f: PnlFee)
    requires diffX == 1691 && diffY == 1383152 && sys == 100 && f == PnlFee(12, 100)
    ensures SideCut(diffX, 0, sys, f) == Success((202, 16, 1))
    ensures SideCut(diffY, 2, sys, f) == Success((165978, 1383152, 165978))
  {
    assert Pow10(0) == 1 && Pow10(1) == 10 && Pow10(2) == 100;
  }

  lemma ThinGuard(l: Ledger)
    requires IsThin(l, 26, 2126667)
    ensures Guard(l.scale, l.calcX, l.calcY, l.pcVault, l.coinVault).Success?
  {
    assert Pow10(0) == 1 && Pow10(1) == 10 && Pow10(2) == 100;
  }

  lemma ThinTaking(l: Ledger, x: u128, y: u128)
    requires IsThin(l, 26, 2126667) && x == 2600 && y == 2126667
    ensures CalcTakePnl(l.scale, l.fees.Pnl(), l.calcX, l.calcY, l.pcVault, l.coinVault, x, y)
      == Success(Taking(202, 165978, 16, 1383152, 1, 165978, 25, 1960689))
  {
    ThinGuard(l);
    ThinCurve(l.calcX, l.calcY, x, y);
    ThinCuts(1691, 1383152, l.scale.sysDecimalValue, l.fees.Pnl());
    hide Guard, OnOldCurve, SideCut, Pow10;
  }

  lemma ThinReading(v: u64, decimals: u8)
    requires decimals == 0 || decimals == 2
    ensures Normalize(v, decimals, 100) == Success(if decimals == 0 then 100 * v else v)
  {
    assert Pow10(0) == 1 && Pow10(1) == 10 && Pow10(2) == 100;
  }

  /** Redeeming all 2500 outstanding LP of that pool fails: one pc unit would stay, and
      the cut of 202 hundredths for one unit overruns it. */
  lemma LastRedemptionCanUnderflow(c: Creation, pc: u64, coin: u64, amount: u64)
    requires c == THIN && pc == 20 && coin == 1_000_000 && amount == 2500
    ensures Create(c).Success?
    ensures var m := Exec(Create(c).value, Donate(pc, coin));
      amount == m.lpSupply && Withdraw(m, amount, None, None, amount) == Failure(Underflow)
  {
    hide Pnl.CalcTakePnl, PoolLedger.Initialize2, Decimals.Normalize, PoolLedger.RemoveLiquidity;
    ThinCreation(c);
    var m := Exec(Create(c).value, Donate(pc, coin));
    assert IsThin(m, 26, 2126667);
    ThinReading(m.pcVault, 0);
    ThinReading(m.coinVault, 2);
    ThinTaking(m, 2600, 2126667);
    ThinRemoval(m, TakePnl(m, m.pcVault, m.coinVault).value, amount);
  }

  lemma ThinRemoval(l: Ledger, k: Taken, amount: u64)
    requires IsThin(l, 26, 2126667) && amount == 2500
    requires k.t == Taking(202, 165978, 16, 1383152, 1, 165978, 25, 1960689)
    requires k.x1 == 2600 && k.y1 == 2126667
    ensures RemoveLiquidity(l, k, amount, None, None) == Failure(Underflow)
  {
    hide Decimals.Normalize;
    ThinReading(24, 0);
  }

  // ---- Swap runs ----

  predicate OnlySwaps(steps: seq<Step>) {
    forall i :: 0 <= i < |steps| ==> IsSwap(steps[i])
  }

  /** Over any run of swaps, base-in or base-out, in either direction and at whatever
      fees, the product of the native reserves never decreases, and the protocol's
      share and the baseline are not touched. */
  lemma {:induction false} SwapRunKeepsProduct(l: Ledger, steps: seq<Step>)
    requires Solvent(l) && OnlySwaps(steps)
    ensures var m := Run(l, steps);
      && Solvent(m)
      && PcReserve(l) * CoinReserve(l) <= PcReserve(m) * CoinReserve(m)
      && m.needPc == l.needPc && m.needCoin == l.needCoin
      && m.calcX == l.calcX && m.calcY == l.calcY
    decreases |steps|
  {
    if steps != [] {
      if Apply(l, steps[0]).Success? {
        SwapKeepsProduct(l, steps[0]);
      }
      SwapRunKeepsProduct(Exec(l, steps[0]), steps[1..]);
    }
  }

  /** Trading cannot extract value: a run that ends with no more of one token than it
      started with leaves at least as much of the other. */
  lemma SwapRunExtractsNothing(l: Ledger, steps: seq<Step>)
    requires Solvent(l) && OnlySwaps(steps)
    ensures var m := Run(l, steps);
      && Solvent(m)
      && (PcReserve(m) <= PcReserve(l) ==> CoinReserve(l) <= CoinReserve(m))
      && (CoinReserve(m) <= CoinReserve(l) ==> PcReserve(l) <= PcReserve(m))
  {
    hide Solvency.Run;
    SwapRunKeepsProduct(l, steps);
    var m := Run(l, steps);
    ProductForces(PcReserve(l), CoinReserve(l), PcReserve(m), CoinReserve(m));
    ProductForces(CoinReserve(l), PcReserve(l), CoinReserve(m), PcReserve(m));
  }

  lemma ProductForces(a: nat, b: nat, c: nat, d: nat)
    requires 0 < a && a * b <= c * d
    ensures c <= a ==> b <= d
  {
    if c <= a {
      MulMono(c, a, d);
      MulCancelLe(b, d, a);
    }
  }
}
