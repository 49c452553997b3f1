/** What every run keeps on every market, whole scale or not: vaults that exceed what is
    owed from them, and LP accounting ahead of the mint. */
module Vaults {
  import opened Checked
  import opened Arith
  import opened Decimals
  import opened Pnl
  import opened Baseline
  import opened State
  import opened PoolLedger
  import opened Solvency

  /** A booked taking: what it owes came out of the reserves, neither side is emptied, and
      each normalised cut is part of its reading and worth less than the native cut and
      two units. */
  ghost predicate FairTaking(l: Ledger, k: Taken)
    requires Solvent(l)
  {
    && Normalize(PcReserve(l), l.scale.pcDecimals, l.scale.sysDecimalValue) == Success(k.x1)
    && Normalize(CoinReserve(l), l.scale.coinDecimals, l.scale.sysDecimalValue) == Success(k.y1)
    && k.ledger == l.(totalPnlPc := k.ledger.totalPnlPc, totalPnlCoin := k.ledger.totalPnlCoin,
                      needPc := k.ledger.needPc, needCoin := k.ledger.needCoin)
    && k.ledger.needPc == l.needPc + k.t.takePc
    && k.ledger.needCoin == l.needCoin + k.t.takeCoin
    && 0 < k.t.pcLeft && k.t.pcLeft + k.t.takePc == PcReserve(l)
    && 0 < k.t.coinLeft && k.t.coinLeft + k.t.takeCoin == CoinReserve(l)
    && k.t.deltaX <= k.x1
    && k.t.deltaX <= Normalized(k.t.takePc + 2, Pow10(l.scale.pcDecimals), l.scale.sysDecimalValue)
    && k.t.deltaY <= k.y1
    && k.t.deltaY <= Normalized(k.t.takeCoin + 2, Pow10(l.scale.coinDecimals), l.scale.sysDecimalValue)
  }

  lemma TakingIsFair(l: Ledger)
    requires Sound(l) && TakePnl(l, PcReserve(l), CoinReserve(l)).Success?
    ensures FairTaking(l, TakePnl(l, PcReserve(l), CoinReserve(l)).value)
  {
    var k := TakePnl(l, PcReserve(l), CoinReserve(l)).value;
    TakingLeavesReserves(
      l.scale, l.fees.Pnl(), l.calcX, l.calcY, PcReserve(l), CoinReserve(l), k.x1, k.y1);
    TakingIsCut(l.scale, l.fees.Pnl(), l.calcX, l.calcY, PcReserve(l), CoinReserve(l), k.x1, k.y1);
    var (diffX, diffY) := Profit(l.calcX, l.calcY, k.x1, k.y1).value;
    CutIsAllOrNothing(l.scale, l.fees.Pnl(), PcReserve(l), CoinReserve(l), diffX, diffY);
    hide CalcTakePnl, Cut, Profit, Pow10;
  }

  lemma WithdrawTakingIsFair(l: Ledger)
    requires Sound(l) && TakeUnlessWithdrawOnly(l, PcReserve(l), CoinReserve(l)).Success?
    ensures FairTaking(l, TakeUnlessWithdrawOnly(l, PcReserve(l), CoinReserve(l)).value)
  {
    hide TakePnl, Normalized;
    if !l.status.WithdrawOnly? {
      TakingIsFair(l);
    }
  }

  // ---- Steps ----

  lemma AddLiquidityKeepsSound(l: Ledger, k: Taken, addPc: u64, addCoin: u64, mint: u64)
    requires Sound(l) && FairTaking(l, k) && AddLiquidity(l, k, addPc, addCoin, mint).Success?
    ensures Sound(AddLiquidity(l, k, addPc, addCoin, mint).value)
  {
    hide PoolLedger.BaselineUp, Decimals.InitScale, Decimals.Normalize, Decimals.Normalized;
  }

  lemma DepositKeepsSound(
    l: Ledger, maxCoin: u64, maxPc: u64, baseSide: u64, otherMin: Option<u64>, userCoin: u64, userPc: u64)
    requires Sound(l) && Deposit(l, maxCoin, maxPc, baseSide, otherMin, userCoin, userPc).Success?
    ensures Sound(Deposit(l, maxCoin, maxPc, baseSide, otherMin, userCoin, userPc).value)
  {
    hide PoolLedger.TakePnl, PoolLedger.DepositAmounts, PoolLedger.AddLiquidity, Decimals.InitScale;
    assert Totals(l) == Success((PcReserve(l), CoinReserve(l)));
    TakingIsFair(l);
    var k := TakePnl(l, PcReserve(l), CoinReserve(l)).value;
    var (deductPc, deductCoin, mint) := DepositAmounts(
      k.t.pcLeft, k.t.coinLeft, l.lpAmount, maxCoin, maxPc, baseSide == 0, otherMin).value;
    AddLiquidityKeepsSound(l, k, deductPc, deductCoin, mint);
    hide FairTaking, Sound;
  }

  lemma WithdrawKeepsSound(l: Ledger, amount: u64, minCoin: Option<u64>, minPc: Option<u64>, userLp: u64)
    requires Sound(l) && Withdraw(l, amount, minCoin, minPc, userLp).Success?
    ensures Sound(Withdraw(l, amount, minCoin, minPc, userLp).value)
  {
    hide PoolLedger.TakeUnlessWithdrawOnly, PoolLedger.BaselineDown, PoolLedger.ExchangeFloor, Decimals.InitScale;
    WithdrawTakingIsFair(l);
    var k := TakeUnlessWithdrawOnly(l, PcReserve(l), CoinReserve(l)).value;
    ExchangeBelow(k.t.pcLeft, amount, l.lpAmount);
    ExchangeBelow(k.t.coinLeft, amount, l.lpAmount);
  }

  lemma WithdrawPnlKeepsSound(l: Ledger)
    requires Sound(l) && WithdrawPnl(l).Success?
    ensures Sound(WithdrawPnl(l).value)
  {
    hide PoolLedger.TakePnl, Decimals.InitScale;
    TakingIsFair(l);
  }

  lemma MigrateKeepsSound(l: Ledger, coinLot: u64, pcLot: u64)
    requires Sound(l) && Migrate(l, coinLot, pcLot).Success?
    ensures Sound(Migrate(l, coinLot, pcLot).value)
  {
    InitScaleKeepsDecimals(l.scale.coinDecimals, l.scale.pcDecimals, coinLot, pcLot);
    hide Decimals.InitScale, Decimals.Normalize, Decimals.Restore;
  }

  lemma SwapKeepsSound(l: Ledger, step: Step)
    requires Sound(l) && IsSwap(step) && Apply(l, step).Success?
    ensures Sound(Apply(l, step).value)
  {
    SwapKeepsProduct(l, step);
    hide Apply, Decimals.InitScale;
  }

  lemma StepKeepsSound(l: Ledger, step: Step)
    requires Sound(l)
    ensures Sound(Exec(l, step))
  {
    hide Decimals.InitScale, PoolLedger.Deposit, PoolLedger.Withdraw, PoolLedger.WithdrawPnl, PoolLedger.Migrate,
      PoolLedger.SwapIn, PoolLedger.SwapOut;
    if Apply(l, step).Success? {
      match step {
        case DoSwapIn(_, _, _, _, _) => SwapKeepsSound(l, step);
        case DoSwapOut(_, _, _, _, _) => SwapKeepsSound(l, step);
        case DoDeposit(maxCoin, maxPc, baseSide, otherMin, userCoin, userPc) =>
          DepositKeepsSound(l, maxCoin, maxPc, baseSide, otherMin, userCoin, userPc);
        case DoWithdraw(amount, minCoin, minPc, userLp) => WithdrawKeepsSound(l, amount, minCoin, minPc, userLp);
        case DoWithdrawPnl => WithdrawPnlKeepsSound(l);
        case DoMigrate(coinLot, pcLot) => MigrateKeepsSound(l, coinLot, pcLot);
        case Donate(_, _) =>
        case SetStatus(_) =>
        case SetFees(_) =>
        case BurnLp(_) =>
      }
    }
  }

  lemma {:induction false} RunKeepsSound(l: Ledger, steps: seq<Step>)
    requires Sound(l)
    ensures Sound(Run(l, steps))
    decreases |steps|
  {
    hide Sound, Apply;
    if steps != [] {
      StepKeepsSound(l, steps[0]);
      RunKeepsSound(Exec(l, steps[0]), steps[1..]);
    }
  }

  // ---- The profit error ----

  /** The vaults always cover what is owed, so neither paying out profit nor withdrawing
      can find them short. */
  lemma ProfitIsAlwaysPayable(
    l: Ledger, amount: u64, minCoin: Option<u64>, minPc: Option<u64>, userLp: u64)
    requires Sound(l)
    ensures WithdrawPnl(l) != Failure(TakePnlError)
    ensures Withdraw(l, amount, minCoin, minPc, userLp) != Failure(TakePnlError)
  {
    TakingErrors(l);
    PaysOut(l);
    WithdrawIsCovered(l, amount, minCoin, minPc, userLp);
  }

  lemma TakingErrors(l: Ledger)
    requires Sound(l)
    ensures TakePnl(l, PcReserve(l), CoinReserve(l)) != Failure(TakePnlError)
  {
    forall pc: u64, coin: u64, x: u128, y: u128
      ensures CalcTakePnl(l.scale, l.fees.Pnl(), l.calcX, l.calcY, pc, coin, x, y) != Failure(TakePnlError)
    {
      CalcErrors(l.scale, l.fees.Pnl(), l.calcX, l.calcY, pc, coin, x, y);
    }
    hide CalcTakePnl;
  }

  lemma CalcErrors(
    s: Scale, f: PnlFee, calcX: u128, calcY: u128, pc: u64, coin: u64, x1: u128, y1: u128)
    ensures CalcTakePnl(s, f, calcX, calcY, pc, coin, x1, y1) != Failure(TakePnlError)
  {
    hide Pow10, Sqrt;
  }

  lemma PaysOut(l: Ledger)
    requires Sound(l) && TakePnl(l, PcReserve(l), CoinReserve(l)) != Failure(TakePnlError)
    ensures WithdrawPnl(l) != Failure(TakePnlError)
  {
    hide PoolLedger.TakePnl;
    if TakePnl(l, PcReserve(l), CoinReserve(l)).Success? {
      TakingIsFair(l);
    }
  }

  lemma WithdrawIsCovered(l: Ledger, amount: u64, minCoin: Option<u64>, minPc: Option<u64>, userLp: u64)
    requires Sound(l) && TakePnl(l, PcReserve(l), CoinReserve(l)) != Failure(TakePnlError)
    ensures Withdraw(l, amount, minCoin, minPc, userLp) != Failure(TakePnlError)
  {
    hide PoolLedger.TakePnl, PoolLedger.RemoveLiquidity;
    if TakeUnlessWithdrawOnly(l, PcReserve(l), CoinReserve(l)).Success? {
      WithdrawTakingIsFair(l);
      if amount <= l.lpSupply && amount < l.lpAmount {
        RemovalIsCovered(l, TakeUnlessWithdrawOnly(l, PcReserve(l), CoinReserve(l)).value, amount, minCoin, minPc);
      }
    }
  }

  lemma RemovalIsCovered(l: Ledger, k: Taken, amount: u64, minCoin: Option<u64>, minPc: Option<u64>)
    requires Solvent(l) && FairTaking(l, k) && amount <= l.lpSupply && amount < l.lpAmount
    ensures RemoveLiquidity(l, k, amount, minCoin, minPc) != Failure(TakePnlError)
  {
    if ExchangeFloor(k.t.pcLeft, amount, l.lpAmount).Success? {
      ExchangeBelow(k.t.pcLeft, amount, l.lpAmount);
    }
    if ExchangeFloor(k.t.coinLeft, amount, l.lpAmount).Success? {
      ExchangeBelow(k.t.coinLeft, amount, l.lpAmount);
    }
  }
}
