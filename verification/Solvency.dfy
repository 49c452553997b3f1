/** What every run of the ledger keeps: reserves that cover the recorded baseline,
    vaults that exceed what is owed, and LP that is never fully redeemable. */
module Solvency {
  import opened Checked
  import opened Arith
  import opened CeilDiv
  import opened Curve
  import opened Decimals
  import opened Pnl
  import opened Baseline
  import opened State
  import opened PoolLedger

  // ---- The invariant ----

  ghost predicate IntegerScales(l: Ledger) {
    WholeScale(l.scale)
  }

  /** Each vault strictly exceeds what is set aside from it. */
  predicate Solvent(l: Ledger) {
    l.needPc < l.pcVault && l.needCoin < l.coinVault
  }

  function PcReserve(l: Ledger): u64
    requires Solvent(l)
  {
    l.pcVault - l.needPc
  }

  function CoinReserve(l: Ledger): u64
    requires Solvent(l)
  {
    l.coinVault - l.needCoin
  }

  function ReserveX(l: Ledger): nat
    requires Solvent(l)
  {
    Normalized(PcReserve(l), Pow10(l.scale.pcDecimals), l.scale.sysDecimalValue)
  }

  function ReserveY(l: Ledger): nat
    requires Solvent(l)
  {
    Normalized(CoinReserve(l), Pow10(l.scale.coinDecimals), l.scale.sysDecimalValue)
  }

  /** Settings and LP bookkeeping. */
  ghost predicate WellKept(l: Ledger) {
    && !l.status.Uninitialized?
    && l.fees.Validate()
    && InitScale(l.scale.coinDecimals, l.scale.pcDecimals, l.scale.coinLotSize, l.marketPcLot) == Success(l.scale)
    && l.lpSupply + Pow10(l.scale.coinDecimals) <= l.lpAmount
  }

  /** Kept on every market, whatever its scale. */
  ghost predicate Sound(l: Ledger) {
    WellKept(l) && Solvent(l)
  }

  ghost predicate Inv(l: Ledger) {
    && Sound(l)
    && l.calcX * l.calcY <= ReserveX(l) * ReserveY(l)
  }

  // ---- Steps ----

  /** The instructions, and what may happen to the accounts from outside: anyone may
      send tokens to a vault, and an LP holder may burn LP. */
  datatype Step =
    | DoSwapIn(dir: Direction, amountIn: u64, minimumOut: u64, funds: u64, now: u64)
    | DoSwapOut(dir: Direction, maxIn: u64, amountOut: u64, funds: u64, now: u64)
    | DoDeposit(maxCoin: u64, maxPc: u64, baseSide: u64, otherMin: Option<u64>, userCoin: u64, userPc: u64)
    | DoWithdraw(amount: u64, minCoin: Option<u64>, minPc: Option<u64>, userLp: u64)
    | DoWithdrawPnl
    | DoMigrate(coinLot: u64, pcLot: u64)
    | SetStatus(status: OffBook)
    | SetFees(fees: Fees)
    | Donate(pc: u64, coin: u64)
    | BurnLp(lp: u64)

  function Apply(l: Ledger, step: Step): Result<Ledger> {
    match step
    case DoSwapIn(dir, amountIn, minimumOut, funds, now) => SwapIn(l, dir, amountIn, minimumOut, funds, now)
    case DoSwapOut(dir, maxIn, amountOut, funds, now) => SwapOut(l, dir, maxIn, amountOut, funds, now)
    case DoDeposit(maxCoin, maxPc, baseSide, otherMin, userCoin, userPc) =>
      Deposit(l, maxCoin, maxPc, baseSide, otherMin, userCoin, userPc)
    case DoWithdraw(amount, minCoin, minPc, userLp) => Withdraw(l, amount, minCoin, minPc, userLp)
    case DoWithdrawPnl => WithdrawPnl(l)
    case DoMigrate(coinLot, pcLot) => Migrate(l, coinLot, pcLot)
    case SetStatus(status) =>
      if status.Uninitialized? then Failure(InvalidParamsSet) else Success(l.(status := status))
    case SetFees(fees) => if fees.Validate() then Success(l.(fees := fees)) else Failure(InvalidFee)
    case Donate(pc, coin) =>
      var pcVault :- ToU64(l.pcVault + pc);
      var coinVault :- ToU64(l.coinVault + coin);
      Success(l.(pcVault := pcVault, coinVault := coinVault))
    case BurnLp(lp) =>
      if lp <= l.lpSupply then Success(l.(lpSupply := l.lpSupply - lp)) else Failure(InsufficientFunds)
  }

  /** A failed instruction leaves no trace. */
  function Exec(l: Ledger, step: Step): Ledger {
    var r := Apply(l, step);
    if r.Success? then r.value else l
  }

  function Run(l: Ledger, steps: seq<Step>): Ledger
    decreases |steps|
  {
    if steps == [] then l else Run(Exec(l, steps[0]), steps[1..])
  }

  /** Every ledger along the run reads both tokens through whole scales. */
  ghost predicate IntegerRun(l: Ledger, steps: seq<Step>)
    decreases |steps|
  {
    IntegerScales(l) && (steps != [] ==> IntegerRun(Exec(l, steps[0]), steps[1..]))
  }

  // ---- Taking profit ----

  lemma InvIsAboveBaseline(l: Ledger)
    requires Inv(l)
    requires ReserveX(l) < U128_LIMIT && ReserveY(l) < U128_LIMIT
    ensures OnOrAboveBaseline(
      l.scale, l.fees.Pnl(), l.calcX, l.calcY, PcReserve(l), CoinReserve(l), ReserveX(l), ReserveY(l))
  {
    InitScaleCoversUnits(l.scale.coinDecimals, l.scale.pcDecimals, l.scale.coinLotSize, l.marketPcLot);
  }

  /** In a kept pool the profit computation can only run out of integer width. */
  lemma TakePnlSafe(l: Ledger)
    requires Inv(l)
    ensures Totals(l) == Success((PcReserve(l), CoinReserve(l)))
    ensures var r := TakePnl(l, PcReserve(l), CoinReserve(l)); r.Failure? ==> r.error == Overflow
  {
    var x := Normalize(PcReserve(l), l.scale.pcDecimals, l.scale.sysDecimalValue);
    var y := Normalize(CoinReserve(l), l.scale.coinDecimals, l.scale.sysDecimalValue);
    if x.Success? && y.Success? {
      InvIsAboveBaseline(l);
      TakePnlOnlyOverflows(l.scale, l.fees.Pnl(), l.calcX, l.calcY, PcReserve(l), CoinReserve(l), x.value, y.value);
    }
  }

  /** What a booked taking leaves: the reserves shrink by exactly what is set aside,
      stay positive, and their normalised loss is covered by the normalised cut. */
  ghost predicate GoodTaking(l: Ledger, k: Taken)
    requires Solvent(l) && IntegerScales(l)
  {
    && k.x1 == ReserveX(l) && k.y1 == ReserveY(l)
    && k.ledger == l.(totalPnlPc := k.ledger.totalPnlPc, totalPnlCoin := k.ledger.totalPnlCoin,
                      needPc := k.ledger.needPc, needCoin := k.ledger.needCoin)
    && k.ledger.needPc == l.needPc + k.t.takePc
    && k.ledger.needCoin == l.needCoin + k.t.takeCoin
    && 0 < k.t.pcLeft && k.t.pcLeft + k.t.takePc == PcReserve(l)
    && 0 < k.t.coinLeft && k.t.coinLeft + k.t.takeCoin == CoinReserve(l)
    && CoversCut(k.t.takePc, l.scale.sysDecimalValue / Pow10(l.scale.pcDecimals), k.t.deltaX)
    && CoversCut(k.t.takeCoin, l.scale.sysDecimalValue / Pow10(l.scale.coinDecimals), k.t.deltaY)
  }

  lemma TakingIsGood(l: Ledger)
    requires Inv(l) && IntegerScales(l)
    requires TakePnl(l, PcReserve(l), CoinReserve(l)).Success?
    ensures GoodTaking(l, TakePnl(l, PcReserve(l), CoinReserve(l)).value)
  {
    var k := TakePnl(l, PcReserve(l), CoinReserve(l)).value;
    var f, pc, coin := l.fees.Pnl(), PcReserve(l), CoinReserve(l);
    TakingStaysAbove(l.scale, f, l.calcX, l.calcY, pc, coin, k.x1, k.y1);
    TakingLeavesReserves(l.scale, f, l.calcX, l.calcY, pc, coin, k.x1, k.y1);
    TakingIsCut(l.scale, f, l.calcX, l.calcY, pc, coin, k.x1, k.y1);
    var (diffX, diffY) := Profit(l.calcX, l.calcY, k.x1, k.y1).value;
    CutIsAllOrNothing(l.scale, f, pc, coin, diffX, diffY);
    hide CalcTakePnl, Cut, Profit, Pow10, InitScale;
  }

  /** The baseline written after a gain or a loss stays covered by the reserve. */
  lemma BaselineCovered(
    total: u64, left: u64, take: u64, amount: u64, decimals: u8, sys: u64, reading: u128, delta: u128)
    requires IntegerScale(Pow10(decimals), sys)
    requires left + take == total && reading == Normalized(total, Pow10(decimals), sys)
    requires take * (sys / Pow10(decimals)) <= delta
    ensures var up := BaselineUp(reading, amount, decimals, sys, delta);
      up.Success? ==> up.value <= Normalized(left + amount, Pow10(decimals), sys)
    ensures var down := BaselineDown(reading, amount, decimals, sys, delta);
      down.Success? && amount <= left ==> down.value <= Normalized(left - amount, Pow10(decimals), sys)
    ensures delta <= reading ==> reading - delta <= Normalized(left, Pow10(decimals), sys)
  {
    var s := sys / Pow10(decimals);
    IntegerScaleIsExact(total, Pow10(decimals), sys);
    IntegerScaleIsExact(amount, Pow10(decimals), sys);
    IntegerScaleIsExact(left, Pow10(decimals), sys);
    IntegerScaleIsExact(left + amount, Pow10(decimals), sys);
    Distribute(left, take, s);
    Distribute(left, amount, s);
    if amount <= left {
      IntegerScaleIsExact(left - amount, Pow10(decimals), sys);
    }
  }

  // ---- Every step ----

  lemma Initialize2Establishes(
    pcVault: u64, coinVault: u64, coinDecimals: u8, pcDecimals: u8,
    coinLot: u64, pcLot: u64, openTime: u64, now: u64)
    requires Initialize2(pcVault, coinVault, coinDecimals, pcDecimals, coinLot, pcLot, openTime, now).Success?
    ensures Inv(Initialize2(pcVault, coinVault, coinDecimals, pcDecimals, coinLot, pcLot, openTime, now).value)
  {
  }

  lemma ReservesGrow(l: Ledger, m: Ledger)
    requires Inv(l) && Solvent(m) && m.scale == l.scale
    requires IntegerScales(l)
    requires PcReserve(l) * CoinReserve(l) <= PcReserve(m) * CoinReserve(m)
    requires m.calcX == l.calcX && m.calcY == l.calcY
    ensures m.calcX * m.calcY <= ReserveX(m) * ReserveY(m)
  {
    var sys := l.scale.sysDecimalValue;
    var ux, uy := Pow10(l.scale.pcDecimals), Pow10(l.scale.coinDecimals);
    IntegerScaleIsExact(PcReserve(l), ux, sys);
    IntegerScaleIsExact(CoinReserve(l), uy, sys);
    IntegerScaleIsExact(PcReserve(m), ux, sys);
    IntegerScaleIsExact(CoinReserve(m), uy, sys);
    Regroup(PcReserve(l), CoinReserve(l), sys / ux, sys / uy);
    Regroup(PcReserve(m), CoinReserve(m), sys / ux, sys / uy);
    MulMono(PcReserve(l) * CoinReserve(l), PcReserve(m) * CoinReserve(m), (sys / ux) * (sys / uy));
  }

  predicate IsSwap(step: Step) {
    step.DoSwapIn? || step.DoSwapOut?
  }

  /** Moving a swap's legs keeps the vaults above what is owed and the product up. */
  lemma SettleKeepsProduct(l: Ledger, dir: Direction, paidIn: u64, paidOut: u64, fee: u64)
    requires Solvent(l) && Settle(l, dir, paidIn, paidOut, fee).Success?
    requires var rIn, rOut := dir.InSide(PcReserve(l), CoinReserve(l)), dir.OutSide(PcReserve(l), CoinReserve(l));
      paidOut < rOut && rIn * rOut <= (rIn + paidIn) * (rOut - paidOut)
    ensures var m := Settle(l, dir, paidIn, paidOut, fee).value;
      && m == l.(pcVault := m.pcVault, coinVault := m.coinVault, swaps := m.swaps)
      && Solvent(m)
      && PcReserve(l) * CoinReserve(l) <= PcReserve(m) * CoinReserve(m)
  {
    var m := Settle(l, dir, paidIn, paidOut, fee).value;
    if dir.PC2Coin? {
      assert PcReserve(m) == PcReserve(l) + paidIn && CoinReserve(m) == CoinReserve(l) - paidOut;
    } else {
      assert CoinReserve(m) == CoinReserve(l) + paidIn && PcReserve(m) == PcReserve(l) - paidOut;
    }
  }

  lemma SwapInKeepsProduct(l: Ledger, dir: Direction, amountIn: u64, minimumOut: u64, funds: u64, now: u64)
    requires Solvent(l) && SwapIn(l, dir, amountIn, minimumOut, funds, now).Success?
    ensures SwapGood(l, SwapIn(l, dir, amountIn, minimumOut, funds, now).value)
  {
    hide Curve.SwapBaseIn, CeilDiv.CheckedCeilDiv;
    var o := OpenForSwap(l, now).value;
    var pc, coin := PcReserve(o), CoinReserve(o);
    BaseInKeepsProduct(amountIn, dir.InSide(pc, coin), dir.OutSide(pc, coin), o.fees.Swap());
    var (out, fee) := BaseInWithFee(amountIn, dir.InSide(pc, coin), dir.OutSide(pc, coin), o.fees.Swap()).value;
    SettleKeepsProduct(o, dir, amountIn, out, fee);
  }

  lemma SwapOutKeepsProduct(l: Ledger, dir: Direction, maxIn: u64, amountOut: u64, funds: u64, now: u64)
    requires Solvent(l) && SwapOut(l, dir, maxIn, amountOut, funds, now).Success?
    ensures SwapGood(l, SwapOut(l, dir, maxIn, amountOut, funds, now).value)
  {
    hide CeilDiv.CheckedCeilDiv, Curve.SwapBaseOut;
    var o := OpenForSwap(l, now).value;
    var pc, coin := PcReserve(o), CoinReserve(o);
    BaseOutKeepsProduct(amountOut, dir.InSide(pc, coin), dir.OutSide(pc, coin), o.fees.Swap());
    var (charged, fee) := BaseOutWithFee(amountOut, dir.InSide(pc, coin), dir.OutSide(pc, coin), o.fees.Swap()).value;
    var m := Settle(o, dir, charged, amountOut, fee).value;
    SettleKeepsProduct(o, dir, charged, amountOut, fee);
    assert SwapOut(l, dir, maxIn, amountOut, funds, now) == Success(m);
  }

  /** Nothing but vaults, status and statistics changes, and the product does not fall. */
  predicate SwapGood(l: Ledger, m: Ledger)
    requires Solvent(l)
  {
    && m == l.(status := m.status, pcVault := m.pcVault, coinVault := m.coinVault, swaps := m.swaps)
    && !m.status.Uninitialized?
    && Solvent(m)
    && PcReserve(l) * CoinReserve(l) <= PcReserve(m) * CoinReserve(m)
  }

  lemma SwapKeepsProduct(l: Ledger, step: Step)
    requires Solvent(l) && IsSwap(step) && Apply(l, step).Success?
    ensures SwapGood(l, Apply(l, step).value)
  {
    match step {
      case DoSwapIn(dir, amountIn, minimumOut, funds, now) =>
        SwapInKeepsProduct(l, dir, amountIn, minimumOut, funds, now);
      case DoSwapOut(dir, maxIn, amountOut, funds, now) =>
        SwapOutKeepsProduct(l, dir, maxIn, amountOut, funds, now);
      case _ =>
    }
  }

  lemma SwapKeepsInv(l: Ledger, step: Step)
    requires Inv(l) && IntegerScales(l) && IsSwap(step) && Apply(l, step).Success?
    ensures Inv(Apply(l, step).value)
  {
    SwapKeepsProduct(l, step);
    ReservesGrow(l, Apply(l, step).value);
  }

  lemma DonationKeepsInv(l: Ledger, step: Step)
    requires Inv(l) && IntegerScales(l) && step.Donate? && Apply(l, step).Success?
    ensures Inv(Apply(l, step).value)
  {
    var m := Apply(l, step).value;
    MulMono2(PcReserve(l), CoinReserve(l), PcReserve(m), CoinReserve(m));
    ReservesGrow(l, m);
  }

  /** Writing the baseline after a taking and a gain on both sides. */
  lemma GainKeepsInv(l: Ledger, k: Taken, m: Ledger, addPc: u64, addCoin: u64)
    requires Inv(l) && IntegerScales(l) && GoodTaking(l, k)
    requires m == k.ledger.(
      pcVault := m.pcVault, coinVault := m.coinVault, lpSupply := m.lpSupply, lpAmount := m.lpAmount,
      calcX := m.calcX, calcY := m.calcY)
    requires m.pcVault == l.pcVault + addPc && m.coinVault == l.coinVault + addCoin
    requires m.lpAmount - m.lpSupply == l.lpAmount - l.lpSupply
    requires BaselineUp(k.x1, addPc, l.scale.pcDecimals, l.scale.sysDecimalValue, k.t.deltaX) == Success(m.calcX)
    requires BaselineUp(k.y1, addCoin, l.scale.coinDecimals, l.scale.sysDecimalValue, k.t.deltaY) == Success(m.calcY)
    ensures Inv(m)
  {
    BaselineCovered(PcReserve(l), k.t.pcLeft, k.t.takePc, addPc,
      l.scale.pcDecimals, l.scale.sysDecimalValue, k.x1, k.t.deltaX);
    BaselineCovered(CoinReserve(l), k.t.coinLeft, k.t.takeCoin, addCoin,
      l.scale.coinDecimals, l.scale.sysDecimalValue, k.y1, k.t.deltaY);
    MulMono2(m.calcX, m.calcY, ReserveX(m), ReserveY(m));
  }

  lemma AddLiquidityKeepsInv(l: Ledger, k: Taken, addPc: u64, addCoin: u64, mint: u64)
    requires Inv(l) && IntegerScales(l) && GoodTaking(l, k)
    requires AddLiquidity(l, k, addPc, addCoin, mint).Success?
    ensures Inv(AddLiquidity(l, k, addPc, addCoin, mint).value)
  {
    GainKeepsInv(l, k, AddLiquidity(l, k, addPc, addCoin, mint).value, addPc, addCoin);
  }

  lemma DepositKeepsInv(
    l: Ledger, maxCoin: u64, maxPc: u64, baseSide: u64, otherMin: Option<u64>, userCoin: u64, userPc: u64)
    requires Inv(l) && IntegerScales(l)
    requires Deposit(l, maxCoin, maxPc, baseSide, otherMin, userCoin, userPc).Success?
    ensures Inv(Deposit(l, maxCoin, maxPc, baseSide, otherMin, userCoin, userPc).value)
  {
    hide Pnl.CalcTakePnl, PoolLedger.DepositAmounts, PoolLedger.AddLiquidity;
    assert Totals(l) == Success((PcReserve(l), CoinReserve(l)));
    TakingIsGood(l);
    var k := TakePnl(l, PcReserve(l), CoinReserve(l)).value;
    var (deductPc, deductCoin, mint) := DepositAmounts(
      k.t.pcLeft, k.t.coinLeft, l.lpAmount, maxCoin, maxPc, baseSide == 0, otherMin).value;
    AddLiquidityKeepsInv(l, k, deductPc, deductCoin, mint);
  }

  lemma ExchangeBelow(amount: u64, numerator: u64, denominator: u64)
    requires 0 < amount && numerator < denominator && ExchangeFloor(amount, numerator, denominator).Success?
    ensures ExchangeFloor(amount, numerator, denominator).value < amount
  {
    MulMono(numerator + 1, denominator, amount);
    DivBelow(amount * numerator, denominator, amount);
  }

  lemma WithdrawTakingIsGood(l: Ledger)
    requires Inv(l) && IntegerScales(l)
    requires TakeUnlessWithdrawOnly(l, PcReserve(l), CoinReserve(l)).Success?
    ensures GoodTaking(l, TakeUnlessWithdrawOnly(l, PcReserve(l), CoinReserve(l)).value)
  {
    if l.status.WithdrawOnly? {
      IntegerScaleIsExact(0, Pow10(l.scale.pcDecimals), l.scale.sysDecimalValue);
      IntegerScaleIsExact(0, Pow10(l.scale.coinDecimals), l.scale.sysDecimalValue);
    } else {
      TakingIsGood(l);
    }
  }

  /** Writing the baseline after a taking and a loss that empties neither side. */
  lemma LossKeepsInv(l: Ledger, k: Taken, m: Ledger, outPc: u64, outCoin: u64)
    requires Inv(l) && IntegerScales(l) && GoodTaking(l, k)
    requires outPc < k.t.pcLeft && outCoin < k.t.coinLeft
    requires m == k.ledger.(
      pcVault := m.pcVault, coinVault := m.coinVault, lpSupply := m.lpSupply, lpAmount := m.lpAmount,
      calcX := m.calcX, calcY := m.calcY)
    requires m.pcVault == l.pcVault - outPc && m.coinVault == l.coinVault - outCoin
    requires m.lpAmount - m.lpSupply == l.lpAmount - l.lpSupply
    requires BaselineDown(k.x1, outPc, l.scale.pcDecimals, l.scale.sysDecimalValue, k.t.deltaX) == Success(m.calcX)
    requires BaselineDown(k.y1, outCoin, l.scale.coinDecimals, l.scale.sysDecimalValue, k.t.deltaY) == Success(m.calcY)
    ensures Inv(m)
  {
    BaselineCovered(PcReserve(l), k.t.pcLeft, k.t.takePc, outPc,
      l.scale.pcDecimals, l.scale.sysDecimalValue, k.x1, k.t.deltaX);
    BaselineCovered(CoinReserve(l), k.t.coinLeft, k.t.takeCoin, outCoin,
      l.scale.coinDecimals, l.scale.sysDecimalValue, k.y1, k.t.deltaY);
    MulMono2(m.calcX, m.calcY, ReserveX(m), ReserveY(m));
  }

  lemma RemoveLiquidityKeepsInv(l: Ledger, k: Taken, amount: u64, minCoin: Option<u64>, minPc: Option<u64>)
    requires Inv(l) && IntegerScales(l) && GoodTaking(l, k)
    requires amount <= l.lpSupply && amount < l.lpAmount
    requires RemoveLiquidity(l, k, amount, minCoin, minPc).Success?
    ensures Inv(RemoveLiquidity(l, k, amount, minCoin, minPc).value)
  {
    hide Decimals.Normalize;
    var m := RemoveLiquidity(l, k, amount, minCoin, minPc).value;
    ExchangeBelow(k.t.pcLeft, amount, l.lpAmount);
    ExchangeBelow(k.t.coinLeft, amount, l.lpAmount);
    LossKeepsInv(l, k, m, l.pcVault - m.pcVault, l.coinVault - m.coinVault);
  }

  lemma WithdrawKeepsInv(l: Ledger, amount: u64, minCoin: Option<u64>, minPc: Option<u64>, userLp: u64)
    requires Inv(l) && IntegerScales(l)
    requires Withdraw(l, amount, minCoin, minPc, userLp).Success?
    ensures Inv(Withdraw(l, amount, minCoin, minPc, userLp).value)
  {
    hide Pnl.CalcTakePnl, PoolLedger.RemoveLiquidity;
    assert Totals(l) == Success((PcReserve(l), CoinReserve(l)));
    WithdrawTakingIsGood(l);
    RemoveLiquidityKeepsInv(l, TakeUnlessWithdrawOnly(l, PcReserve(l), CoinReserve(l)).value, amount, minCoin, minPc);
  }

  /** Writing the baseline after a taking whose whole debt is then paid out. */
  lemma PayoutKeepsInv(l: Ledger, k: Taken, m: Ledger)
    requires Inv(l) && IntegerScales(l) && GoodTaking(l, k)
    requires m == k.ledger.(
      pcVault := m.pcVault, coinVault := m.coinVault, needPc := 0, needCoin := 0,
      calcX := m.calcX, calcY := m.calcY)
    requires m.pcVault == l.pcVault - k.ledger.needPc && m.coinVault == l.coinVault - k.ledger.needCoin
    requires k.t.deltaX <= k.x1 && k.t.deltaY <= k.y1
    requires m.calcX == k.x1 - k.t.deltaX && m.calcY == k.y1 - k.t.deltaY
    ensures Inv(m)
  {
    BaselineCovered(PcReserve(l), k.t.pcLeft, k.t.takePc, 0,
      l.scale.pcDecimals, l.scale.sysDecimalValue, k.x1, k.t.deltaX);
    BaselineCovered(CoinReserve(l), k.t.coinLeft, k.t.takeCoin, 0,
      l.scale.coinDecimals, l.scale.sysDecimalValue, k.y1, k.t.deltaY);
    MulMono2(m.calcX, m.calcY, ReserveX(m), ReserveY(m));
  }

  lemma WithdrawPnlKeepsInv(l: Ledger)
    requires Inv(l) && IntegerScales(l) && WithdrawPnl(l).Success?
    ensures Inv(WithdrawPnl(l).value)
  {
    hide Pnl.CalcTakePnl;
    assert Totals(l) == Success((PcReserve(l), CoinReserve(l)));
    TakingIsGood(l);
    PayoutKeepsInv(l, TakePnl(l, PcReserve(l), CoinReserve(l)).value, WithdrawPnl(l).value);
  }

  /** Re-basing reads the native baseline, which the native reserves cover; only the new
      market's scale has to be whole. */
  lemma MigrateKeepsInv(l: Ledger, coinLot: u64, pcLot: u64)
    requires Inv(l) && Migrate(l, coinLot, pcLot).Success?
    requires IntegerScales(Migrate(l, coinLot, pcLot).value)
    ensures Inv(Migrate(l, coinLot, pcLot).value)
  {
    hide Decimals.InitScale;
    var m := Migrate(l, coinLot, pcLot).value;
    if coinLot == l.scale.coinLotSize && pcLot == l.marketPcLot {
      assert m.scale == l.scale;
      SameLotsKeepInv(l, m);
    } else {
      InitScaleKeepsDecimals(l.scale.coinDecimals, l.scale.pcDecimals, coinLot, pcLot);
      NewLotsKeepInv(l, m);
    }
  }

  lemma InitScaleKeepsDecimals(coinDecimals: u8, pcDecimals: u8, coinLot: u64, pcLot: u64)
    requires InitScale(coinDecimals, pcDecimals, coinLot, pcLot).Success?
    ensures var s := InitScale(coinDecimals, pcDecimals, coinLot, pcLot).value;
      s.coinDecimals == coinDecimals && s.pcDecimals == pcDecimals && s.coinLotSize == coinLot
  {
  }

  lemma SameLotsKeepInv(l: Ledger, m: Ledger)
    requires Inv(l) && IntegerScales(l) && WellKept(m) && m.scale == l.scale
    requires m.pcVault == l.pcVault && m.coinVault == l.coinVault && m.needPc == 0 && m.needCoin == 0
    requires m.calcX == l.calcX && m.calcY == l.calcY
    ensures Inv(m)
  {
    MulMono2(PcReserve(l), CoinReserve(l), PcReserve(m), CoinReserve(m));
    ReservesGrow(l, m);
  }

  lemma NewLotsKeepInv(l: Ledger, m: Ledger)
    requires Inv(l) && WellKept(m) && IntegerScales(m)
    requires m.scale.pcDecimals == l.scale.pcDecimals && m.scale.coinDecimals == l.scale.coinDecimals
    requires m.pcVault == l.pcVault && m.coinVault == l.coinVault && m.needPc == 0 && m.needCoin == 0
    requires m.calcX == Rebase(l.calcX, Pow10(l.scale.pcDecimals), l.scale.sysDecimalValue, m.scale.sysDecimalValue)
    requires m.calcY == Rebase(l.calcY, Pow10(l.scale.coinDecimals), l.scale.sysDecimalValue, m.scale.sysDecimalValue)
    ensures Inv(m)
  {
    NativeCovered(l);
    MulMono2(PcReserve(l), CoinReserve(l), PcReserve(m), CoinReserve(m));
    ScaledProduct(
      Restored(l.calcX, Pow10(l.scale.pcDecimals), l.scale.sysDecimalValue),
      Restored(l.calcY, Pow10(l.scale.coinDecimals), l.scale.sysDecimalValue),
      PcReserve(m), CoinReserve(m),
      Pow10(l.scale.pcDecimals), Pow10(l.scale.coinDecimals), m.scale.sysDecimalValue);
  }

  lemma NativeCovered(l: Ledger)
    requires Inv(l)
    ensures Restored(l.calcX, Pow10(l.scale.pcDecimals), l.scale.sysDecimalValue)
          * Restored(l.calcY, Pow10(l.scale.coinDecimals), l.scale.sysDecimalValue)
      <= PcReserve(l) * CoinReserve(l)
  {
    InitScaleCoversUnits(l.scale.coinDecimals, l.scale.pcDecimals, l.scale.coinLotSize, l.marketPcLot);
    NativeGuardHolds(l.calcX, l.calcY, PcReserve(l), CoinReserve(l),
      Pow10(l.scale.pcDecimals), Pow10(l.scale.coinDecimals), l.scale.sysDecimalValue);
  }

  lemma ScaledProduct(a: nat, b: nat, pc: nat, coin: nat, ux: nat, uy: nat, sys: nat)
    requires IntegerScale(ux, sys) && IntegerScale(uy, sys) && a * b <= pc * coin
    ensures Normalized(a, ux, sys) * Normalized(b, uy, sys) <= Normalized(pc, ux, sys) * Normalized(coin, uy, sys)
  {
    IntegerScaleIsExact(a, ux, sys);
    IntegerScaleIsExact(b, uy, sys);
    IntegerScaleIsExact(pc, ux, sys);
    IntegerScaleIsExact(coin, uy, sys);
    Regroup(a, b, sys / ux, sys / uy);
    Regroup(pc, coin, sys / ux, sys / uy);
    MulMono(a * b, pc * coin, (sys / ux) * (sys / uy));
  }

  lemma StepKeepsInv(l: Ledger, step: Step)
    requires Inv(l) && IntegerScales(l) && IntegerScales(Exec(l, step))
    ensures Inv(Exec(l, step))
  {
    if Apply(l, step).Success? {
      match step {
        case DoSwapIn(_, _, _, _, _) => SwapKeepsInv(l, step);
        case DoSwapOut(_, _, _, _, _) => SwapKeepsInv(l, step);
        case DoDeposit(maxCoin, maxPc, baseSide, otherMin, userCoin, userPc) =>
          DepositKeepsInv(l, maxCoin, maxPc, baseSide, otherMin, userCoin, userPc);
        case DoWithdraw(amount, minCoin, minPc, userLp) => WithdrawKeepsInv(l, amount, minCoin, minPc, userLp);
        case DoWithdrawPnl => WithdrawPnlKeepsInv(l);
        case DoMigrate(coinLot, pcLot) => MigrateKeepsInv(l, coinLot, pcLot);
        case Donate(_, _) => DonationKeepsInv(l, step);
        case SetStatus(_) =>
        case SetFees(_) =>
        case BurnLp(_) =>
      }
    }
  }

  // ---- Runs ----

  lemma {:induction false} RunKeepsInv(l: Ledger, steps: seq<Step>)
    requires Inv(l) && IntegerRun(l, steps)
    ensures Inv(Run(l, steps)) && IntegerScales(Run(l, steps))
    decreases |steps|
  {
    if steps != [] {
      StepKeepsInv(l, steps[0]);
      RunKeepsInv(Exec(l, steps[0]), steps[1..]);
    }
  }
}
