/** The pool's ledger while no order book is in use: its state, its instructions as
    functions on that state, and what every instruction preserves. */
module PoolLedger {
  import opened Checked
  import opened Arith
  import opened CeilDiv
  import opened Curve
  import opened Decimals
  import opened Pnl
  import opened State

  type OffBook = s: Status | !s.OrderbookPermission() witness Status.SwapOnly

  datatype SwapTotals = SwapTotals(
    coinIn: u128, pcOut: u128, accCoinFee: u64,
    pcIn: u128, coinOut: u128, accPcFee: u64)

  datatype Ledger = Ledger(
    status: OffBook, openTime: u64, scale: Scale, marketPcLot: u64, fees: Fees,
    pcVault: u64, coinVault: u64,
    needPc: u64, needCoin: u64, totalPnlPc: u64, totalPnlCoin: u64,
    lpAmount: u64, lpSupply: u64,
    calcX: u128, calcY: u128, swaps: SwapTotals)

  const NO_SWAPS: SwapTotals := SwapTotals(0, 0, 0, 0, 0, 0)

  // ---- Instructions ----

  function Initialize2(
    pcVault: u64, coinVault: u64, coinDecimals: u8, pcDecimals: u8,
    coinLot: u64, pcLot: u64, openTime: u64, now: u64): Result<Ledger>
  {
    if coinVault == 0 || pcVault == 0 then Failure(InvalidSupply)
    else
      :- Need(pcLot != 0 && coinLot != 0, InvalidMarket);
      var product :- ToU128(pcVault * coinVault);
      var liquidity :- ToU64(Sqrt(product));
      var locked :- ToU64(Pow10(coinDecimals));
      :- Need(locked <= liquidity, InitLpAmountTooLess);
      var scale :- InitScale(coinDecimals, pcDecimals, coinLot, pcLot);
      var x :- Normalize(pcVault, pcDecimals, scale.sysDecimalValue);
      var y :- Normalize(coinVault, coinDecimals, scale.sysDecimalValue);
      Success(Ledger(
        if openTime > now then WaitingTrade else SwapOnly, openTime, scale, pcLot, DEFAULT_FEES,
        pcVault, coinVault, 0, 0, 0, 0,
        liquidity, liquidity - locked, x, y, NO_SWAPS))
  }

  /** The reserves: what the vaults hold less what is set aside for the protocol. */
  function Totals(l: Ledger): Result<(u64, u64)> {
    if l.needPc <= l.pcVault && l.needCoin <= l.coinVault
    then Success((l.pcVault - l.needPc, l.coinVault - l.needCoin))
    else Failure(CheckedSubOverflow)
  }

  datatype Taken = Taken(ledger: Ledger, t: Taking, x1: u128, y1: u128)

  /** Book a taking: profit statistics and the amounts set aside grow together. */
  function Book(l: Ledger, t: Taking): Result<Ledger> {
    if t.takePc == 0 then Success(l)
    else
      var totalPc :- ToU64(l.totalPnlPc + t.grossPc);
      var totalCoin :- ToU64(l.totalPnlCoin + t.grossCoin);
      var needPc :- ToU64(l.needPc + t.takePc);
      var needCoin :- ToU64(l.needCoin + t.takeCoin);
      Success(l.(totalPnlPc := totalPc, totalPnlCoin := totalCoin, needPc := needPc, needCoin := needCoin))
  }

  function TakePnl(l: Ledger, pc: u64, coin: u64): Result<Taken> {
    var x1 :- Normalize(pc, l.scale.pcDecimals, l.scale.sysDecimalValue);
    var y1 :- Normalize(coin, l.scale.coinDecimals, l.scale.sysDecimalValue);
    var t :- CalcTakePnl(l.scale, l.fees.Pnl(), l.calcX, l.calcY, pc, coin, x1, y1);
    var booked :- Book(l, t);
    Success(Taken(booked, t, x1, y1))
  }

  /** A swap opens a waiting pool once its time has come. */
  function OpenForSwap(l: Ledger, now: u64): Result<Ledger> {
    if !l.status.SwapPermission() then Failure(InvalidStatus)
    else if l.status.WaitingTrade? then
      if now < l.openTime then Failure(InvalidStatus) else Success(l.(status := SwapOnly))
    else Success(l)
  }

  /** Move a swap's two legs and count them. */
  function Settle(l: Ledger, dir: Direction, paidIn: u64, paidOut: u64, fee: u64): Result<Ledger> {
    match dir
    case Coin2PC =>
      var coinVault :- ToU64(l.coinVault + paidIn);
      var pcVault :- Sub(l.pcVault, paidOut);
      var coinIn :- ToU128(l.swaps.coinIn + paidIn);
      var pcOut :- ToU128(l.swaps.pcOut + paidOut);
      var accCoinFee :- ToU64(l.swaps.accCoinFee + fee);
      Success(l.(coinVault := coinVault, pcVault := pcVault,
                 swaps := l.swaps.(coinIn := coinIn, pcOut := pcOut, accCoinFee := accCoinFee)))
    case PC2Coin =>
      var pcVault :- ToU64(l.pcVault + paidIn);
      var coinVault :- Sub(l.coinVault, paidOut);
      var pcIn :- ToU128(l.swaps.pcIn + paidIn);
      var coinOut :- ToU128(l.swaps.coinOut + paidOut);
      var accPcFee :- ToU64(l.swaps.accPcFee + fee);
      Success(l.(pcVault := pcVault, coinVault := coinVault,
                 swaps := l.swaps.(pcIn := pcIn, coinOut := coinOut, accPcFee := accPcFee)))
  }

  function SwapIn(l0: Ledger, dir: Direction, amountIn: u64, minimumOut: u64, funds: u64, now: u64)
    : Result<Ledger>
  {
    var l :- OpenForSwap(l0, now);
    var (pc, coin) :- Totals(l);
    :- Need(amountIn <= funds, InsufficientFunds);
    var (out, fee) :- BaseInWithFee(amountIn, dir.InSide(pc, coin), dir.OutSide(pc, coin), l.fees.Swap());
    :- Need(minimumOut <= out, ExceededSlippage);
    :- Need(out != 0 && amountIn != 0, InvalidInput);
    :- Need(out < dir.OutSide(pc, coin), InsufficientFunds);
    Settle(l, dir, amountIn, out, fee)
  }

  function SwapOut(l0: Ledger, dir: Direction, maxIn: u64, amountOut: u64, funds: u64, now: u64)
    : Result<Ledger>
  {
    var l :- OpenForSwap(l0, now);
    var (pc, coin) :- Totals(l);
    var (charged, fee) :- BaseOutWithFee(amountOut, dir.InSide(pc, coin), dir.OutSide(pc, coin), l.fees.Swap());
    :- Need(charged <= funds, InsufficientFunds);
    :- Need(charged <= maxIn, ExceededSlippage);
    :- Need(charged != 0 && amountOut != 0, InvalidInput);
    :- Need(amountOut < dir.OutSide(pc, coin), InsufficientFunds);
    Settle(l, dir, charged, amountOut, fee)
  }

  /** amount * numerator / denominator, rounded as asked. */
  function ExchangeFloor(amount: u64, numerator: u64, denominator: u64): Result<u64> {
    var scaled :- ToU128(amount * numerator);
    var q :- Div(scaled, denominator);
    ToU64(q)
  }

  function ExchangeCeiling(amount: u64, numerator: u64, denominator: u64): Result<u64> {
    var scaled :- ToU128(amount * numerator);
    var (q, _) :- CheckedCeilDiv(scaled, denominator);
    ToU64(q)
  }

  /** What a deposit deducts of pc and of coin, and the LP it mints. */
  function DepositAmounts(
    pc: u64, coin: u64, lp: u64, maxCoin: u64, maxPc: u64, baseCoin: bool, otherMin: Option<u64>)
    : Result<(u64, u64, u64)>
  {
    if baseCoin then
      var deductPc :- ExchangeCeiling(maxCoin, pc, coin);
      :- Need(deductPc <= maxPc, ExceededSlippage);
      :- Need(otherMin.Some? ==> otherMin.value <= deductPc, ExceededSlippage);
      var mint :- ExchangeFloor(lp, maxCoin, coin);
      Success((deductPc, maxCoin, mint))
    else
      var deductCoin :- ExchangeCeiling(maxPc, coin, pc);
      :- Need(deductCoin <= maxCoin, ExceededSlippage);
      :- Need(otherMin.Some? ==> otherMin.value <= deductCoin, ExceededSlippage);
      var mint :- ExchangeFloor(lp, maxPc, pc);
      Success((maxPc, deductCoin, mint))
  }

  /** The baseline after the reserves gain `amount`: the reading before, plus the
      normalised gain, less the cut. */
  function BaselineUp(reading: u128, amount: u64, decimals: u8, sys: u64, delta: u128): Result<u128> {
    var gain :- Normalize(amount, decimals, sys);
    var sum :- ToU128(reading + gain);
    Sub(sum, delta)
  }

  function BaselineDown(reading: u128, amount: u64, decimals: u8, sys: u64, delta: u128): Result<u128> {
    var loss :- Normalize(amount, decimals, sys);
    var left :- Sub(reading, loss);
    Sub(left, delta)
  }

  function Deposit(
    l: Ledger, maxCoin: u64, maxPc: u64, baseSide: u64, otherMin: Option<u64>,
    userCoin: u64, userPc: u64): Result<Ledger>
  {
    if maxCoin == 0 || maxPc == 0 then Failure(InvalidInput)
    else
      :- Need(l.status.DepositPermission(), InvalidStatus);
      var (pc, coin) :- Totals(l);
      var taken :- TakePnl(l, pc, coin);
      :- Need(l.lpAmount != 0, NotAllowZeroLP);
      var (deductPc, deductCoin, mint) :- DepositAmounts(
        taken.t.pcLeft, taken.t.coinLeft, l.lpAmount, maxCoin, maxPc, baseSide == 0, otherMin);
      :- Need(deductCoin <= userCoin && deductPc <= userPc, InsufficientFunds);
      :- Need(mint != 0 && deductCoin != 0 && deductPc != 0, InvalidInput);
      AddLiquidity(l, taken, deductPc, deductCoin, mint)
  }

  /** Move a deposit's tokens, mint its LP and write the new baseline. */
  function AddLiquidity(l: Ledger, taken: Taken, deductPc: u64, deductCoin: u64, mint: u64): Result<Ledger> {
    var coinVault :- ToU64(l.coinVault + deductCoin);
    var pcVault :- ToU64(l.pcVault + deductPc);
    var lpSupply :- ToU64(l.lpSupply + mint);
    var lpAmount :- ToU64(l.lpAmount + mint);
    var calcX :- BaselineUp(taken.x1, deductPc, l.scale.pcDecimals, l.scale.sysDecimalValue, taken.t.deltaX);
    var calcY :- BaselineUp(taken.y1, deductCoin, l.scale.coinDecimals, l.scale.sysDecimalValue, taken.t.deltaY);
    Success(taken.ledger.(
      coinVault := coinVault, pcVault := pcVault, lpSupply := lpSupply, lpAmount := lpAmount,
      calcX := calcX, calcY := calcY))
  }

  /** Withdrawing in a withdraw-only pool takes no profit first. */
  function TakeUnlessWithdrawOnly(l: Ledger, pc: u64, coin: u64): Result<Taken> {
    if l.status.WithdrawOnly? then
      var x1 :- Normalize(pc, l.scale.pcDecimals, l.scale.sysDecimalValue);
      var y1 :- Normalize(coin, l.scale.coinDecimals, l.scale.sysDecimalValue);
      Success(Taken(l, Taking(0, 0, 0, 0, 0, 0, pc, coin), x1, y1))
    else TakePnl(l, pc, coin)
  }

  function Withdraw(
    l: Ledger, amount: u64, minCoin: Option<u64>, minPc: Option<u64>, userLp: u64): Result<Ledger>
  {
    if !l.status.WithdrawPermission() then Failure(InvalidStatus)
    else
      :- Need(amount <= userLp, InsufficientFunds);
      :- Need(amount <= l.lpSupply && amount < l.lpAmount, NotAllowZeroLP);
      var (pc, coin) :- Totals(l);
      var taken :- TakeUnlessWithdrawOnly(l, pc, coin);
      RemoveLiquidity(l, taken, amount, minCoin, minPc)
  }

  /** Pay a withdrawal's share of what the taking left, burn its LP and write the new
      baseline. */
  function RemoveLiquidity(l: Ledger, taken: Taken, amount: u64, minCoin: Option<u64>, minPc: Option<u64>)
    : Result<Ledger>
    requires amount <= l.lpSupply && amount < l.lpAmount
  {
    var coinOut :- ExchangeFloor(taken.t.coinLeft, amount, l.lpAmount);
    var pcOut :- ExchangeFloor(taken.t.pcLeft, amount, l.lpAmount);
    :- Need(amount != 0 && coinOut != 0 && pcOut != 0, InvalidInput);
    :- Need(coinOut < l.coinVault && pcOut < l.pcVault, TakePnlError);
    :- Need(minCoin.Some? && minPc.Some? ==> minCoin.value <= coinOut && minPc.value <= pcOut, ExceededSlippage);
    var calcX :- BaselineDown(taken.x1, pcOut, l.scale.pcDecimals, l.scale.sysDecimalValue, taken.t.deltaX);
    var calcY :- BaselineDown(taken.y1, coinOut, l.scale.coinDecimals, l.scale.sysDecimalValue, taken.t.deltaY);
    Success(taken.ledger.(
      coinVault := l.coinVault - coinOut, pcVault := l.pcVault - pcOut,
      lpSupply := l.lpSupply - amount, lpAmount := l.lpAmount - amount,
      calcX := calcX, calcY := calcY))
  }

  function WithdrawPnl(l: Ledger): Result<Ledger> {
    if l.status.Uninitialized? then Failure(InvalidStatus)
    else
      var (pc, coin) :- Totals(l);
      var taken :- TakePnl(l, pc, coin);
      var booked := taken.ledger;
      :- Need(booked.needCoin <= l.coinVault && booked.needPc <= l.pcVault, TakePnlError);
      var calcX :- Sub(taken.x1, taken.t.deltaX);
      var calcY :- Sub(taken.y1, taken.t.deltaY);
      Success(booked.(
        coinVault := l.coinVault - booked.needCoin, pcVault := l.pcVault - booked.needPc,
        needCoin := 0, needPc := 0, calcX := calcX, calcY := calcY))
  }

  /** Move to a market with other lots: a new scale, default fees, cleared statistics,
      and a baseline re-read in the new base when the lots differ. */
  function Migrate(l: Ledger, coinLot: u64, pcLot: u64): Result<Ledger> {
    if l.status.Uninitialized? then Failure(InvalidStatus)
    else
      var pcBase :- Restore(l.calcX, l.scale.pcDecimals, l.scale.sysDecimalValue);
      var coinBase :- Restore(l.calcY, l.scale.coinDecimals, l.scale.sysDecimalValue);
      var pc64 :- ToU64(pcBase);
      var coin64 :- ToU64(coinBase);
      var scale :- InitScale(l.scale.coinDecimals, l.scale.pcDecimals, coinLot, pcLot);
      var moved := l.(
        status := WaitingTrade, scale := scale, marketPcLot := pcLot, fees := DEFAULT_FEES,
        needPc := 0, needCoin := 0, totalPnlPc := 0, totalPnlCoin := 0, swaps := NO_SWAPS);
      if coinLot == l.scale.coinLotSize && pcLot == l.marketPcLot then Success(moved)
      else
        var calcX :- Normalize(pc64, scale.pcDecimals, scale.sysDecimalValue);
        var calcY :- Normalize(coin64, scale.coinDecimals, scale.sysDecimalValue);
        Success(moved.(calcX := calcX, calcY := calcY))
  }
}
