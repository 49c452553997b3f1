/** The pool account as the program updates it: one object whose fields each
    instruction rewrites in place, proved against the ledger's instructions. */
module PoolAccount {
  import opened Checked
  import opened Arith
  import opened Curve
  import opened Decimals
  import opened Pnl
  import opened State
  import opened PoolLedger
  import opened Solvency

  /** What creation and migration fix. */
  datatype Setup = Setup(openTime: u64, scale: Scale, marketPcLot: u64)

  /** Profit and swap statistics. */
  datatype StateData = StateData(needPc: u64, needCoin: u64, totalPnlPc: u64, totalPnlCoin: u64, swaps: SwapTotals)

  /** LP the pool accounts for, and LP the mint has outstanding. */
  datatype LpBook = LpBook(amount: u64, supply: u64)

  class Pool {
    var status: OffBook
    var setup: Setup
    var fees: Fees
    var data: StateData
    var pcVault: u64
    var coinVault: u64
    var lp: LpBook
    var calcX: u128
    var calcY: u128

    function View(): Ledger
      reads this
    {
      Ledger(status, setup.openTime, setup.scale, setup.marketPcLot, fees, pcVault, coinVault,
             data.needPc, data.needCoin, data.totalPnlPc, data.totalPnlCoin,
             lp.amount, lp.supply, calcX, calcY, data.swaps)
    }

    constructor FromLedger(l: Ledger)
      ensures View() == l
    {
      status, fees := l.status, l.fees;
      setup := Setup(l.openTime, l.scale, l.marketPcLot);
      data := StateData(l.needPc, l.needCoin, l.totalPnlPc, l.totalPnlCoin, l.swaps);
      pcVault, coinVault := l.pcVault, l.coinVault;
      lp := LpBook(l.lpAmount, l.lpSupply);
      calcX, calcY := l.calcX, l.calcY;
    }

    method Restore(l: Ledger)
      modifies this
      ensures View() == l
    {
      status, fees := l.status, l.fees;
      setup := Setup(l.openTime, l.scale, l.marketPcLot);
      data := StateData(l.needPc, l.needCoin, l.totalPnlPc, l.totalPnlCoin, l.swaps);
      pcVault, coinVault := l.pcVault, l.coinVault;
      lp := LpBook(l.lpAmount, l.lpSupply);
      calcX, calcY := l.calcX, l.calcY;
    }

    static method Initialize2(
      pcVault: u64, coinVault: u64, coinDecimals: u8, pcDecimals: u8,
      coinLot: u64, pcLot: u64, openTime: u64, now: u64) returns (r: Result<Pool>)
      ensures var spec := PoolLedger.Initialize2(
                pcVault, coinVault, coinDecimals, pcDecimals, coinLot, pcLot, openTime, now);
        if r.Success? then fresh(r.value) && spec == Success(r.value.View()) else spec == Failure(r.error)
    {
      if coinVault == 0 || pcVault == 0 {
        return Failure(InvalidSupply);
      }
      :- Need(pcLot != 0 && coinLot != 0, InvalidMarket);
      var product :- ToU128(pcVault * coinVault);
      var root := IntegerSqrt(product);
      var liquidity :- ToU64(root);
      var locked :- ToU64(Pow10(coinDecimals));
      if liquidity < locked {
        return Failure(InitLpAmountTooLess);
      }
      var userLp := liquidity - locked;
      var scale :- InitScale(coinDecimals, pcDecimals, coinLot, pcLot);
      var x :- Normalize(pcVault, pcDecimals, scale.sysDecimalValue);
      var y :- Normalize(coinVault, coinDecimals, scale.sysDecimalValue);
      var pool := new Pool.FromLedger(Ledger(
        if openTime > now then WaitingTrade else SwapOnly, openTime, scale, pcLot, DEFAULT_FEES,
        pcVault, coinVault, 0, 0, 0, 0, liquidity, userLp, x, y, NO_SWAPS));
      return Success(pool);
    }

    /** Take profit: update the statistics and the amounts set aside, and return the two
        cuts and the reserves that remain. */
    method CalcTakePnl(pc: u64, coin: u64, x1: u128, y1: u128) returns (r: Result<Taking>)
      modifies `data
      ensures data.swaps == old(data.swaps)
      ensures
        var spec := Pnl.CalcTakePnl(old(setup).scale, old(fees).Pnl(), old(calcX), old(calcY), pc, coin, x1, y1);
        if spec.Failure? then r == spec
        else
          var booked := Book(old(View()), spec.value);
          if booked.Failure? then r == Failure(booked.error)
          else r == spec && View() == booked.value
    {
      hide Pnl.CalcTakePnl;
      var t :- TakeProfit(setup.scale, fees.Pnl(), calcX, calcY, pc, coin, x1, y1);
      if t.takePc != 0 {
        var totalPc :- ToU64(data.totalPnlPc + t.grossPc);
        data := data.(totalPnlPc := totalPc);
        var totalCoin :- ToU64(data.totalPnlCoin + t.grossCoin);
        data := data.(totalPnlCoin := totalCoin);
        var owedPc :- ToU64(data.needPc + t.takePc);
        data := data.(needPc := owedPc);
        var owedCoin :- ToU64(data.needCoin + t.takeCoin);
        data := data.(needCoin := owedCoin);
      }
      return Success(t);
    }

    /** Read the reserves in the common base and take the profit on them. */
    method TakePnl(pc: u64, coin: u64) returns (r: Result<(Taking, u128, u128)>)
      modifies `data
      ensures data.swaps == old(data.swaps)
      ensures
        var spec := PoolLedger.TakePnl(old(View()), pc, coin);
        if spec.Failure? then r == Failure(spec.error)
        else r == Success((spec.value.t, spec.value.x1, spec.value.y1)) && View() == spec.value.ledger
    {
      var x1 :- Normalize(pc, setup.scale.pcDecimals, setup.scale.sysDecimalValue);
      var y1 :- Normalize(coin, setup.scale.coinDecimals, setup.scale.sysDecimalValue);
      var t :- CalcTakePnl(pc, coin, x1, y1);
      return Success((t, x1, y1));
    }

    method Open(now: u64) returns (r: Outcome)
      modifies `status
      ensures
        var spec := OpenForSwap(old(View()), now);
        if spec.Failure? then r == Fail(spec.error) else r.Pass? && View() == spec.value
    {
      if !status.SwapPermission() {
        return Fail(InvalidStatus);
      } else if status.WaitingTrade? {
        if now < setup.openTime {
          return Fail(InvalidStatus);
        }
        status := SwapOnly;
      }
      return Pass;
    }

    method Transfer(dir: Direction, paidIn: u64, paidOut: u64, fee: u64) returns (r: Result<()>)
      modifies `pcVault, `coinVault, `data
      ensures
        var spec := Settle(old(View()), dir, paidIn, paidOut, fee);
        if spec.Failure? then r == Failure(spec.error) else r.Success? && View() == spec.value
    {
      match dir {
        case Coin2PC =>
          var more :- ToU64(coinVault + paidIn);
          coinVault := more;
          var less :- Sub(pcVault, paidOut);
          pcVault := less;
          var totalIn :- ToU128(data.swaps.coinIn + paidIn);
          data := data.(swaps := data.swaps.(coinIn := totalIn));
          var totalOut :- ToU128(data.swaps.pcOut + paidOut);
          data := data.(swaps := data.swaps.(pcOut := totalOut));
          var charged :- ToU64(data.swaps.accCoinFee + fee);
          data := data.(swaps := data.swaps.(accCoinFee := charged));
        case PC2Coin =>
          var more :- ToU64(pcVault + paidIn);
          pcVault := more;
          var less :- Sub(coinVault, paidOut);
          coinVault := less;
          var totalIn :- ToU128(data.swaps.pcIn + paidIn);
          data := data.(swaps := data.swaps.(pcIn := totalIn));
          var totalOut :- ToU128(data.swaps.coinOut + paidOut);
          data := data.(swaps := data.swaps.(coinOut := totalOut));
          var charged :- ToU64(data.swaps.accPcFee + fee);
          data := data.(swaps := data.swaps.(accPcFee := charged));
      }
      return Success(());
    }

    method ProcessSwapBaseIn(dir: Direction, amountIn: u64, minimumOut: u64, funds: u64, now: u64)
      returns (r: Result<()>)
      modifies this
      ensures Follows(SwapIn(old(View()), dir, amountIn, minimumOut, funds, now), r)
    {
      hide Curve.BaseInWithFee, PoolLedger.Settle;
      :- Open(now);
      var totals :- Totals(View());
      var (pc, coin) := totals;
      :- Need(amountIn <= funds, InsufficientFunds);
      var quote :- BaseInWithFee(amountIn, dir.InSide(pc, coin), dir.OutSide(pc, coin), fees.Swap());
      var (out, fee) := quote;
      :- Need(minimumOut <= out, ExceededSlippage);
      :- Need(out != 0 && amountIn != 0, InvalidInput);
      :- Need(out < dir.OutSide(pc, coin), InsufficientFunds);
      r := Transfer(dir, amountIn, out, fee);
    }

    method ProcessSwapBaseOut(dir: Direction, maxIn: u64, amountOut: u64, funds: u64, now: u64)
      returns (r: Result<()>)
      modifies this
      ensures Follows(SwapOut(old(View()), dir, maxIn, amountOut, funds, now), r)
    {
      hide Curve.BaseOutWithFee, PoolLedger.Settle;
      :- Open(now);
      var totals :- Totals(View());
      var (pc, coin) := totals;
      var quote :- BaseOutWithFee(amountOut, dir.InSide(pc, coin), dir.OutSide(pc, coin), fees.Swap());
      var (charged, fee) := quote;
      :- Need(charged <= funds, InsufficientFunds);
      :- Need(charged <= maxIn, ExceededSlippage);
      :- Need(charged != 0 && amountOut != 0, InvalidInput);
      :- Need(amountOut < dir.OutSide(pc, coin), InsufficientFunds);
      r := Transfer(dir, charged, amountOut, fee);
    }

    method ProcessDeposit(
      maxCoin: u64, maxPc: u64, baseSide: u64, otherMin: Option<u64>, userCoin: u64, userPc: u64)
      returns (r: Result<()>)
      modifies this
      ensures Follows(Deposit(old(View()), maxCoin, maxPc, baseSide, otherMin, userCoin, userPc), r)
    {
      hide PoolLedger.TakePnl, PoolLedger.DepositAmounts, PoolLedger.AddLiquidity;
      ghost var before := View();
      :- Need(maxCoin != 0 && maxPc != 0, InvalidInput);
      :- Need(status.DepositPermission(), InvalidStatus);
      var totals :- Totals(View());
      var (pc, coin) := totals;
      var taken :- TakePnl(pc, coin);
      var (t, x1, y1) := taken;
      :- Need(lp.amount != 0, NotAllowZeroLP);
      var amounts :- DepositAmounts(
        t.pcLeft, t.coinLeft, lp.amount, maxCoin, maxPc, baseSide == 0, otherMin);
      var (deductPc, deductCoin, mint) := amounts;
      :- Need(deductCoin <= userCoin && deductPc <= userPc, InsufficientFunds);
      :- Need(mint != 0 && deductCoin != 0 && deductPc != 0, InvalidInput);
      r := PayIn(before, t, x1, y1, deductPc, deductCoin, mint);
    }

    /** Move a deposit's tokens, mint its LP and write the new baseline. */
    method PayIn(ghost before: Ledger, t: Taking, x1: u128, y1: u128, deductPc: u64, deductCoin: u64, mint: u64)
      returns (r: Result<()>)
      requires View() == before.(totalPnlPc := data.totalPnlPc, totalPnlCoin := data.totalPnlCoin,
                                 needPc := data.needPc, needCoin := data.needCoin)
      modifies this
      ensures Follows(AddLiquidity(before, Taken(old(View()), t, x1, y1), deductPc, deductCoin, mint), r)
    {
      hide PoolLedger.BaselineUp;
      var moreCoin :- ToU64(coinVault + deductCoin);
      coinVault := moreCoin;
      var morePc :- ToU64(pcVault + deductPc);
      pcVault := morePc;
      var supply :- ToU64(lp.supply + mint);
      lp := lp.(supply := supply);
      var amount :- ToU64(lp.amount + mint);
      lp := lp.(amount := amount);
      var x :- BaselineUp(x1, deductPc, setup.scale.pcDecimals, setup.scale.sysDecimalValue, t.deltaX);
      calcX := x;
      var y :- BaselineUp(y1, deductCoin, setup.scale.coinDecimals, setup.scale.sysDecimalValue, t.deltaY);
      calcY := y;
      return Success(());
    }

    method ProcessWithdraw(amount: u64, minCoin: Option<u64>, minPc: Option<u64>, userLp: u64)
      returns (r: Result<()>)
      modifies this
      ensures Follows(Withdraw(old(View()), amount, minCoin, minPc, userLp), r)
    {
      hide PoolLedger.TakePnl, PoolLedger.RemoveLiquidity;
      ghost var before := View();
      :- Need(status.WithdrawPermission(), InvalidStatus);
      :- Need(amount <= userLp, InsufficientFunds);
      :- Need(amount <= lp.supply && amount < lp.amount, NotAllowZeroLP);
      var totals :- Totals(View());
      var (pc, coin) := totals;
      var x1, y1 := 0, 0;
      var t := Taking(0, 0, 0, 0, 0, 0, pc, coin);
      if status.WithdrawOnly? {
        x1 :- Normalize(pc, setup.scale.pcDecimals, setup.scale.sysDecimalValue);
        y1 :- Normalize(coin, setup.scale.coinDecimals, setup.scale.sysDecimalValue);
      } else {
        var taken :- TakePnl(pc, coin);
        t, x1, y1 := taken.0, taken.1, taken.2;
      }
      r := PayOut(before, t, x1, y1, amount, minCoin, minPc);
    }

    /** Pay a withdrawal's share, burn its LP and write the new baseline. */
    method PayOut(
      ghost before: Ledger, t: Taking, x1: u128, y1: u128, amount: u64, minCoin: Option<u64>, minPc: Option<u64>)
      returns (r: Result<()>)
      requires View() == before.(totalPnlPc := data.totalPnlPc, totalPnlCoin := data.totalPnlCoin,
                                 needPc := data.needPc, needCoin := data.needCoin)
      requires amount <= lp.supply && amount < lp.amount
      modifies this
      ensures Follows(RemoveLiquidity(before, Taken(old(View()), t, x1, y1), amount, minCoin, minPc), r)
    {
      hide PoolLedger.ExchangeFloor, PoolLedger.BaselineDown;
      var coinOut :- ExchangeFloor(t.coinLeft, amount, lp.amount);
      var pcOut :- ExchangeFloor(t.pcLeft, amount, lp.amount);
      :- Need(amount != 0 && coinOut != 0 && pcOut != 0, InvalidInput);
      :- Need(coinOut < coinVault && pcOut < pcVault, TakePnlError);
      :- Need(minCoin.Some? && minPc.Some? ==> minCoin.value <= coinOut && minPc.value <= pcOut, ExceededSlippage);
      coinVault := coinVault - coinOut;
      pcVault := pcVault - pcOut;
      lp := LpBook(lp.amount - amount, lp.supply - amount);
      var x :- BaselineDown(x1, pcOut, setup.scale.pcDecimals, setup.scale.sysDecimalValue, t.deltaX);
      calcX := x;
      var y :- BaselineDown(y1, coinOut, setup.scale.coinDecimals, setup.scale.sysDecimalValue, t.deltaY);
      calcY := y;
      return Success(());
    }

    method ProcessWithdrawPnl() returns (r: Result<()>)
      modifies this
      ensures Follows(WithdrawPnl(old(View())), r)
    {
      hide PoolLedger.TakePnl;
      :- Need(!status.Uninitialized?, InvalidStatus);
      var totals :- Totals(View());
      var (pc, coin) := totals;
      var taken :- TakePnl(pc, coin);
      var (t, x1, y1) := taken;
      if data.needCoin <= coinVault && data.needPc <= pcVault {
        coinVault := coinVault - data.needCoin;
        pcVault := pcVault - data.needPc;
        data := data.(needCoin := 0, needPc := 0);
        var x: u128 :- Sub(x1, t.deltaX);
        calcX := x;
        var y: u128 :- Sub(y1, t.deltaY);
        calcY := y;
        return Success(());
      }
      return Failure(TakePnlError);
    }

    method ProcessMigrate(coinLot: u64, pcLot: u64) returns (r: Result<()>)
      modifies this
      ensures Follows(Migrate(old(View()), coinLot, pcLot), r)
    {
      hide Decimals.Restore, Decimals.Normalize, Decimals.InitScale;
      :- Need(!status.Uninitialized?, InvalidStatus);
      var pcBase :- Decimals.Restore(calcX, setup.scale.pcDecimals, setup.scale.sysDecimalValue);
      var coinBase :- Decimals.Restore(calcY, setup.scale.coinDecimals, setup.scale.sysDecimalValue);
      var pc :- ToU64(pcBase);
      var coin :- ToU64(coinBase);
      var sameLots := coinLot == setup.scale.coinLotSize && pcLot == setup.marketPcLot;
      var moved :- InitScale(setup.scale.coinDecimals, setup.scale.pcDecimals, coinLot, pcLot);
      setup := setup.(scale := moved, marketPcLot := pcLot);
      fees := DEFAULT_FEES;
      data := StateData(0, 0, 0, 0, NO_SWAPS);
      status := WaitingTrade;
      if !sameLots {
        var x :- Normalize(pc, setup.scale.pcDecimals, setup.scale.sysDecimalValue);
        calcX := x;
        var y :- Normalize(coin, setup.scale.coinDecimals, setup.scale.sysDecimalValue);
        calcY := y;
      }
      return Success(());
    }

    /** An instruction ends as its specification does, success or the same error. */
    predicate Follows(spec: Result<Ledger>, r: Result<()>)
      reads this
    {
      if spec.Failure? then r == Failure(spec.error) else r.Success? && View() == spec.value
    }

    /** One transaction: what a failed instruction had already written is discarded. */
    method Execute(step: Step) returns (r: Result<()>)
      modifies this
      ensures View() == Exec(old(View()), step)
      ensures r.Success? <==> Apply(old(View()), step).Success?
      ensures r.Failure? ==> r.error == Apply(old(View()), step).error
    {
      var before := View();
      match step {
        case DoSwapIn(dir, amountIn, minimumOut, funds, now) =>
          r := ProcessSwapBaseIn(dir, amountIn, minimumOut, funds, now);
        case DoSwapOut(dir, maxIn, amountOut, funds, now) =>
          r := ProcessSwapBaseOut(dir, maxIn, amountOut, funds, now);
        case DoDeposit(maxCoin, maxPc, baseSide, otherMin, userCoin, userPc) =>
          r := ProcessDeposit(maxCoin, maxPc, baseSide, otherMin, userCoin, userPc);
        case DoWithdraw(amount, minCoin, minPc, userLp) =>
          r := ProcessWithdraw(amount, minCoin, minPc, userLp);
        case DoWithdrawPnl =>
          r := ProcessWithdrawPnl();
        case DoMigrate(coinLot, pcLot) =>
          r := ProcessMigrate(coinLot, pcLot);
        case _ =>
          var outside := Apply(View(), step);
          if outside.Success? {
            Restore(outside.value);
            r := Success(());
          } else {
            r := Failure(outside.error);
          }
      }
      if r.Failure? {
        Restore(before);
      }
    }
  }
}
