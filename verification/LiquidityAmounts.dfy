/** What a deposit and a withdrawal move and record, and exactly when they go through. */
module LiquidityAmounts {
  import opened Checked
  import opened Arith
  import opened CeilDiv
  import opened Curve
  import opened Decimals
  import opened State
  import opened PoolLedger
  import opened Solvency
  import opened PnlErrors
  import opened Vaults
  import opened ProfitAmounts
  import opened Liquidity

  // ---- Deposits ----

  lemma FloorFits(q: nat, amount: u64, numerator: u64, denominator: u64)
    requires 0 < denominator && IsFloor(q, amount * numerator, denominator)
    ensures ExchangeFloor(amount, numerator, denominator) == if q < U64_LIMIT then Success(q) else Failure(Overflow)
  {
    ProductFits(amount, numerator);
    FloorIs(amount * numerator, denominator);
    FloorUnique(q, (amount * numerator) / denominator, amount * numerator, denominator);
    hide IsFloor;
  }

  lemma CeilingFits(q: nat, amount: u64, numerator: u64, denominator: u64)
    requires 0 < denominator && IsRoundedUp(q, amount * numerator, denominator)
    ensures ExchangeCeiling(amount, numerator, denominator) == if q < U64_LIMIT then Success(q) else Failure(Overflow)
  {
    hide CheckedCeilDiv, IsRoundedUp;
    ProductFits(amount, numerator);
    RoundedUpFits(q, amount * numerator, denominator);
  }

  /** The caller's limits on a deposit. */
  predicate WithinLimits(
    maxCoin: u64, maxPc: u64, baseCoin: bool, otherMin: Option<u64>, paidPc: nat, paidCoin: nat)
  {
    && paidPc <= maxPc && paidCoin <= maxCoin
    && (otherMin.Some? ==> otherMin.value <= if baseCoin then paidPc else paidCoin)
  }

  lemma DepositAmountsIs(
    pc: u64, coin: u64, lp: u64, maxCoin: u64, maxPc: u64, baseCoin: bool, otherMin: Option<u64>,
    paidPc: nat, paidCoin: nat, mint: nat)
    requires 0 < pc && 0 < coin
    requires IsDeposit(pc, coin, lp, maxCoin, maxPc, baseCoin, paidPc, paidCoin, mint)
    ensures var r := DepositAmounts(pc, coin, lp, maxCoin, maxPc, baseCoin, otherMin);
      && (r.Success? <==> WithinLimits(maxCoin, maxPc, baseCoin, otherMin, paidPc, paidCoin) && mint < U64_LIMIT)
      && (r.Success? ==> r.value == (paidPc, paidCoin, mint))
  {
    hide IsFloor, IsRoundedUp, ExchangeFloor, ExchangeCeiling;
    if baseCoin {
      CeilingFits(paidPc, maxCoin, pc, coin);
      FloorFits(mint, lp, maxCoin, coin);
    } else {
      CeilingFits(paidCoin, maxPc, coin, pc);
      FloorFits(mint, lp, maxPc, pc);
    }
  }

  /** What a gain adds to the readings a baseline is made of. */
  predicate ReadGains(s: Scale, gainX: nat, gainY: nat, pc: nat, coin: nat) {
    && IsReading(gainX, pc, Pow10(s.pcDecimals), s.sysDecimalValue)
    && IsReading(gainY, coin, Pow10(s.coinDecimals), s.sysDecimalValue)
  }

  predicate TakesDeposits(l: Ledger) {
    l.status == LiquidityOnly || l.status == SwapOnly || l.status == WaitingTrade
  }

  predicate DepositFits(l: Ledger, k: Taken, paidPc: nat, paidCoin: nat, mint: nat, gainX: nat, gainY: nat) {
    && l.pcVault + paidPc < U64_LIMIT && l.coinVault + paidCoin < U64_LIMIT
    && l.lpAmount + mint < U64_LIMIT
    && k.x1 + gainX < U128_LIMIT && k.y1 + gainY < U128_LIMIT
  }

  /** The tokens and the LP of a deposit, on top of what its taking booked; the baseline is
      the readings before it, less the cuts, plus the readings of what was paid. */
  predicate PaidIn(l: Ledger, k: Taken, m: Ledger, paidPc: nat, paidCoin: nat, mint: nat, gainX: nat, gainY: nat) {
    && m.pcVault == l.pcVault + paidPc && m.coinVault == l.coinVault + paidCoin
    && m.lpAmount == l.lpAmount + mint && m.lpSupply == l.lpSupply + mint
    && m.calcX + k.t.deltaX == k.x1 + gainX && m.calcY + k.t.deltaY == k.y1 + gainY
    && m == k.ledger.(pcVault := m.pcVault, coinVault := m.coinVault, lpAmount := m.lpAmount,
                      lpSupply := m.lpSupply, calcX := m.calcX, calcY := m.calcY)
  }

  /** Once its taking succeeds, a deposit goes through exactly when the pool takes deposits,
      its worth is nonzero, within the caller's limits and funds, and there is room; it then
      moves and records just that worth. */
  lemma DepositIs(
    l: Ledger, maxCoin: u64, maxPc: u64, baseSide: u64, otherMin: Option<u64>, userCoin: u64, userPc: u64,
    k: Taken, paidPc: nat, paidCoin: nat, mint: nat, gainX: nat, gainY: nat)
    requires Sound(l) && TakePnl(l, PcReserve(l), CoinReserve(l)) == Success(k)
    requires IsDeposit(k.t.pcLeft, k.t.coinLeft, l.lpAmount, maxCoin, maxPc, baseSide == 0, paidPc, paidCoin, mint)
    requires ReadGains(l.scale, gainX, gainY, paidPc, paidCoin)
    ensures var r := Deposit(l, maxCoin, maxPc, baseSide, otherMin, userCoin, userPc);
      && (r.Success? <==>
            && TakesDeposits(l) && 0 < maxCoin && 0 < maxPc
            && 0 < paidPc <= userPc && 0 < paidCoin <= userCoin && 0 < mint
            && WithinLimits(maxCoin, maxPc, baseSide == 0, otherMin, paidPc, paidCoin)
            && DepositFits(l, k, paidPc, paidCoin, mint, gainX, gainY))
      && (r.Success? ==> PaidIn(l, k, r.value, paidPc, paidCoin, mint, gainX, gainY))
  {
    hide TakePnl, DepositAmounts, AddLiquidity, IsDeposit, InitScale, IsReading, WithinLimits, PaidIn;
    TakingIsFair(l);
    hide FairTaking;
    DepositAmountsIs(k.t.pcLeft, k.t.coinLeft, l.lpAmount, maxCoin, maxPc, baseSide == 0, otherMin,
      paidPc, paidCoin, mint);
    if WithinLimits(maxCoin, maxPc, baseSide == 0, otherMin, paidPc, paidCoin) && mint < U64_LIMIT {
      LimitsBound(maxCoin, maxPc, baseSide == 0, otherMin, paidPc, paidCoin);
      AddLiquidityIs(l, k, paidPc, paidCoin, mint, gainX, gainY);
    }
  }

  lemma LimitsBound(
    maxCoin: u64, maxPc: u64, baseCoin: bool, otherMin: Option<u64>, paidPc: nat, paidCoin: nat)
    requires WithinLimits(maxCoin, maxPc, baseCoin, otherMin, paidPc, paidCoin)
    ensures paidPc <= maxPc && paidCoin <= maxCoin
  {
  }

  lemma AddLiquidityIs(l: Ledger, k: Taken, paidPc: u64, paidCoin: u64, mint: u64, gainX: nat, gainY: nat)
    requires Sound(l) && FairTaking(l, k) && ReadGains(l.scale, gainX, gainY, paidPc, paidCoin)
    ensures var r := AddLiquidity(l, k, paidPc, paidCoin, mint);
      && (r.Success? <==> DepositFits(l, k, paidPc, paidCoin, mint, gainX, gainY))
      && (r.Success? ==> PaidIn(l, k, r.value, paidPc, paidCoin, mint, gainX, gainY))
  {
    UnitsFit(l);
    ReadingUnique(gainX, paidPc, l.scale.pcDecimals, l.scale.sysDecimalValue);
    ReadingUnique(gainY, paidCoin, l.scale.coinDecimals, l.scale.sysDecimalValue);
    hide Normalize, Normalized, InitScale, IsReading, Pow10;
  }

  lemma UnitsFit(l: Ledger)
    requires WellKept(l)
    ensures Pow10(l.scale.pcDecimals) <= l.scale.sysDecimalValue < U64_LIMIT
    ensures Pow10(l.scale.coinDecimals) <= l.scale.sysDecimalValue < U64_LIMIT
  {
    InitScaleCoversUnits(l.scale.coinDecimals, l.scale.pcDecimals, l.scale.coinLotSize, l.marketPcLot);
  }

  lemma ReadingUnique(x: nat, v: u64, decimals: u8, sys: u64)
    requires Pow10(decimals) < U64_LIMIT && IsReading(x, v, Pow10(decimals), sys)
    ensures Normalize(v, decimals, sys) == Success(x) && x < U128_LIMIT
  {
    NormalizeFits(v, decimals, sys);
    ReadingIs(v, decimals, sys);
    FloorUnique(x, Normalize(v, decimals, sys).value, v * sys, Pow10(decimals));
  }

  /** In terms of the vaults and the LP alone. */
  lemma DepositMoves(
    l: Ledger, maxCoin: u64, maxPc: u64, baseSide: u64, otherMin: Option<u64>, userCoin: u64, userPc: u64)
    returns (k: Taken, gainX: nat, gainY: nat)
    requires Sound(l) && Deposit(l, maxCoin, maxPc, baseSide, otherMin, userCoin, userPc).Success?
    ensures TakePnl(l, PcReserve(l), CoinReserve(l)) == Success(k)
    ensures var m := Deposit(l, maxCoin, maxPc, baseSide, otherMin, userCoin, userPc).value;
      var paidPc, paidCoin, mint := m.pcVault - l.pcVault, m.coinVault - l.coinVault, m.lpAmount - l.lpAmount;
      && TakesDeposits(l)
      && 0 < paidPc <= userPc && 0 < paidCoin <= userCoin && 0 < mint
      && IsDeposit(k.t.pcLeft, k.t.coinLeft, l.lpAmount, maxCoin, maxPc, baseSide == 0, paidPc, paidCoin, mint)
      && WithinLimits(maxCoin, maxPc, baseSide == 0, otherMin, paidPc, paidCoin)
      && ReadGains(l.scale, gainX, gainY, paidPc, paidCoin)
      && PaidIn(l, k, m, paidPc, paidCoin, mint, gainX, gainY)
  {
    var m, paidPc, paidCoin, mint;
    k, m, paidPc, paidCoin, mint := DepositIsFair(l, maxCoin, maxPc, baseSide, otherMin, userCoin, userPc);
    hide Deposit, TakePnl, IsDeposit, InitScale, Pow10;
    gainX, gainY := GainsAreRead(l, paidPc, paidCoin);
    DepositIs(l, maxCoin, maxPc, baseSide, otherMin, userCoin, userPc, k, paidPc, paidCoin, mint, gainX, gainY);
  }

  lemma GainsAreRead(l: Ledger, pc: u64, coin: u64) returns (gainX: nat, gainY: nat)
    requires WellKept(l)
    ensures ReadGains(l.scale, gainX, gainY, pc, coin)
  {
    UnitsFit(l);
    NormalizeFits(pc, l.scale.pcDecimals, l.scale.sysDecimalValue);
    NormalizeFits(coin, l.scale.coinDecimals, l.scale.sysDecimalValue);
    ReadingIs(pc, l.scale.pcDecimals, l.scale.sysDecimalValue);
    ReadingIs(coin, l.scale.coinDecimals, l.scale.sysDecimalValue);
    gainX := Normalize(pc, l.scale.pcDecimals, l.scale.sysDecimalValue).value;
    gainY := Normalize(coin, l.scale.coinDecimals, l.scale.sysDecimalValue).value;
  }

  // ---- Withdrawals ----

  /** The LP's share of what the taking left of each reserve, rounded down. */
  predicate IsPayout(k: Taken, lp: nat, amount: nat, paidPc: nat, paidCoin: nat) {
    IsFloor(paidPc, k.t.pcLeft * amount, lp) && IsFloor(paidCoin, k.t.coinLeft * amount, lp)
  }

  predicate TakesWithdrawals(l: Ledger) {
    TakesDeposits(l) || l.status == WithdrawOnly
  }

  /** The caller's minimums count only together. */
  predicate MeetsMinimums(minCoin: Option<u64>, minPc: Option<u64>, paidPc: nat, paidCoin: nat) {
    minCoin.Some? && minPc.Some? ==> minCoin.value <= paidCoin && minPc.value <= paidPc
  }

  /** The tokens and the LP of a withdrawal, on top of what its taking booked; the baseline is
      the readings before it, less the cuts and the readings of what was paid. */
  predicate PaidOutAs(
    l: Ledger, k: Taken, m: Ledger, amount: nat, paidPc: nat, paidCoin: nat, lossX: nat, lossY: nat)
  {
    && m.pcVault == l.pcVault - paidPc && m.coinVault == l.coinVault - paidCoin
    && m.lpAmount == l.lpAmount - amount && m.lpSupply == l.lpSupply - amount
    && m.calcX + k.t.deltaX + lossX == k.x1 && m.calcY + k.t.deltaY + lossY == k.y1
    && m == k.ledger.(pcVault := m.pcVault, coinVault := m.coinVault, lpAmount := m.lpAmount,
                      lpSupply := m.lpSupply, calcX := m.calcX, calcY := m.calcY)
  }

  /** Once its taking succeeds (a withdraw-only pool takes nothing), a withdrawal goes through
      exactly when the pool takes withdrawals, the caller has the LP, the payout is nonzero and
      meets the minimums, and the readings cover it beside the cuts. */
  lemma WithdrawIs(
    l: Ledger, amount: u64, minCoin: Option<u64>, minPc: Option<u64>, userLp: u64,
    k: Taken, paidPc: nat, paidCoin: nat, lossX: nat, lossY: nat)
    requires Sound(l) && TakeUnlessWithdrawOnly(l, PcReserve(l), CoinReserve(l)) == Success(k)
    requires IsPayout(k, l.lpAmount, amount, paidPc, paidCoin)
    requires ReadGains(l.scale, lossX, lossY, paidPc, paidCoin)
    ensures var r := Withdraw(l, amount, minCoin, minPc, userLp);
      && (r.Success? <==>
            && TakesWithdrawals(l) && 0 < amount <= userLp && amount <= l.lpSupply
            && 0 < paidPc && 0 < paidCoin && MeetsMinimums(minCoin, minPc, paidPc, paidCoin)
            && k.t.deltaX + lossX <= k.x1 && k.t.deltaY + lossY <= k.y1)
      && (r.Success? ==> PaidOutAs(l, k, r.value, amount, paidPc, paidCoin, lossX, lossY))
  {
    hide TakeUnlessWithdrawOnly, RemoveLiquidity, InitScale, IsReading, IsPayout, PaidOutAs, MeetsMinimums;
    WithdrawTakingIsFair(l);
    if amount <= l.lpSupply {
      RemoveLiquidityIs(l, amount, minCoin, minPc, k, paidPc, paidCoin, lossX, lossY);
    }
    hide FairTaking;
  }

  lemma RemoveLiquidityIs(
    l: Ledger, amount: u64, minCoin: Option<u64>, minPc: Option<u64>,
    k: Taken, paidPc: nat, paidCoin: nat, lossX: nat, lossY: nat)
    requires Sound(l) && FairTaking(l, k) && amount <= l.lpSupply
    requires IsPayout(k, l.lpAmount, amount, paidPc, paidCoin)
    requires ReadGains(l.scale, lossX, lossY, paidPc, paidCoin)
    ensures amount < l.lpAmount
    ensures var r := RemoveLiquidity(l, k, amount, minCoin, minPc);
      && (r.Success? <==>
            && 0 < amount && 0 < paidPc && 0 < paidCoin && MeetsMinimums(minCoin, minPc, paidPc, paidCoin)
            && k.t.deltaX + lossX <= k.x1 && k.t.deltaY + lossY <= k.y1)
      && (r.Success? ==> PaidOutAs(l, k, r.value, amount, paidPc, paidCoin, lossX, lossY))
  {
    UnitsFit(l);
    hide InitScale, Normalize, Normalized, IsReading, ExchangeFloor, IsFloor;
    PayoutIsPart(paidPc, k.t.pcLeft, amount, l.lpAmount);
    PayoutIsPart(paidCoin, k.t.coinLeft, amount, l.lpAmount);
    FloorFits(paidPc, k.t.pcLeft, amount, l.lpAmount);
    FloorFits(paidCoin, k.t.coinLeft, amount, l.lpAmount);
    ReadingUnique(lossX, paidPc, l.scale.pcDecimals, l.scale.sysDecimalValue);
    ReadingUnique(lossY, paidCoin, l.scale.coinDecimals, l.scale.sysDecimalValue);
    hide Pow10;
  }

  lemma PayoutIsPart(paid: nat, left: nat, amount: nat, lp: nat)
    requires 0 < left && amount < lp && IsFloor(paid, left * amount, lp)
    ensures paid < left
  {
    if left <= paid {
      MulMono(left, paid, lp);
      MulMono(amount + 1, lp, left);
    }
  }

  /** In terms of the vaults alone: each side pays out the LP's share of what the taking
      left, and a withdraw-only pool takes nothing first. */
  lemma WithdrawMoves(l: Ledger, amount: u64, minCoin: Option<u64>, minPc: Option<u64>, userLp: u64)
    returns (k: Taken, lossX: nat, lossY: nat)
    requires Sound(l) && Withdraw(l, amount, minCoin, minPc, userLp).Success?
    ensures if l.status == WithdrawOnly
      then k.t.takePc == 0 && k.t.takeCoin == 0 && k.t.deltaX == 0 && k.t.deltaY == 0 && k.ledger == l
           && k.t.pcLeft == PcReserve(l) && k.t.coinLeft == CoinReserve(l) && ReadReserves(l, k.x1, k.y1)
      else TakePnl(l, PcReserve(l), CoinReserve(l)) == Success(k)
    ensures var m := Withdraw(l, amount, minCoin, minPc, userLp).value;
      var paidPc, paidCoin := l.pcVault - m.pcVault, l.coinVault - m.coinVault;
      && TakesWithdrawals(l) && 0 < amount <= userLp && amount <= l.lpSupply
      && 0 < paidPc && 0 < paidCoin && MeetsMinimums(minCoin, minPc, paidPc, paidCoin)
      && IsPayout(k, l.lpAmount, amount, paidPc, paidCoin)
      && ReadGains(l.scale, lossX, lossY, paidPc, paidCoin)
      && PaidOutAs(l, k, m, amount, paidPc, paidCoin, lossX, lossY)
  {
    hide TakePnl, InitScale, RemoveLiquidity, ExchangeFloor, Normalize;
    var m;
    k, m := WithdrawIsShare(l, amount, minCoin, minPc, userLp);
    ReservesAreRead(l);
    ReadingIs(PcReserve(l), l.scale.pcDecimals, l.scale.sysDecimalValue);
    ReadingIs(CoinReserve(l), l.scale.coinDecimals, l.scale.sysDecimalValue);
    PayoutIsShare(k.t.pcLeft, amount, l.lpAmount);
    PayoutIsShare(k.t.coinLeft, amount, l.lpAmount);
    hide IsFloor, Pow10;
    lossX, lossY := GainsAreRead(l, l.pcVault - m.pcVault, l.coinVault - m.coinVault);
    WithdrawIs(l, amount, minCoin, minPc, userLp, k, l.pcVault - m.pcVault, l.coinVault - m.coinVault, lossX, lossY);
  }
}
