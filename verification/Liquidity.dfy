/** Deposits and withdrawals never dilute what one LP token stands for. */
module Liquidity {
  import opened Checked
  import opened Arith
  import opened CeilDiv
  import opened Pnl
  import opened State
  import opened PoolLedger
  import opened Solvency

  /** Per-LP value of a reserve does not fall from (a, p) to (b, q): a/p <= b/q. */
  ghost predicate NotDiluted(a: nat, p: nat, b: nat, q: nat) {
    a * q <= b * p
  }

  /** When neither side is diluted, nor is the product per squared LP. */
  lemma ProductNotDiluted(pc: nat, coin: nat, lp: nat, pc': nat, coin': nat, lp': nat)
    requires NotDiluted(pc, lp, pc', lp') && NotDiluted(coin, lp, coin', lp')
    ensures (pc * coin) * (lp' * lp') <= (pc' * coin') * (lp * lp)
  {
    MulMono2(pc * lp', coin * lp', pc' * lp, coin' * lp);
    Regroup(pc, coin, lp', lp');
    Regroup(pc', coin', lp, lp);
  }

  /** The taking the program performs before any liquidity instruction books exactly
      what leaves the reserves. */
  lemma TakenReserves(l: Ledger, k: Taken)
    requires Solvent(l) && TakePnl(l, PcReserve(l), CoinReserve(l)) == Success(k)
    ensures k.t.pcLeft + k.t.takePc == PcReserve(l) && k.t.coinLeft + k.t.takeCoin == CoinReserve(l)
    ensures k.ledger.needPc == l.needPc + k.t.takePc && k.ledger.needCoin == l.needCoin + k.t.takeCoin
    ensures k.ledger.lpAmount == l.lpAmount && k.ledger.lpSupply == l.lpSupply
  {
  }

  /** What a deposit takes and mints: the whole of the base side's maximum, its worth of the
      other side rounded up, and the base side's share of the LP rounded down. */
  predicate IsDeposit(
    pc: nat, coin: nat, lp: nat, maxCoin: nat, maxPc: nat, baseCoin: bool, paidPc: nat, paidCoin: nat, mint: nat)
  {
    if baseCoin then
      paidCoin == maxCoin && IsRoundedUp(paidPc, maxCoin * pc, coin) && IsFloor(mint, lp * maxCoin, coin)
    else
      paidPc == maxPc && IsRoundedUp(paidCoin, maxPc * coin, pc) && IsFloor(mint, lp * maxPc, pc)
  }

  /** The amounts a deposit deducts and mints, against the reserves after the taking. */
  lemma DepositAmountsFair(
    pc: u64, coin: u64, lp: u64, maxCoin: u64, maxPc: u64, baseCoin: bool, otherMin: Option<u64>)
    requires DepositAmounts(pc, coin, lp, maxCoin, maxPc, baseCoin, otherMin).Success?
    ensures var (deductPc, deductCoin, mint) := DepositAmounts(pc, coin, lp, maxCoin, maxPc, baseCoin, otherMin).value;
      && IsDeposit(pc, coin, lp, maxCoin, maxPc, baseCoin, deductPc, deductCoin, mint)
      && (deductPc != 0 && deductCoin != 0 ==> pc * mint <= deductPc * lp && coin * mint <= deductCoin * lp)
      && deductPc <= maxPc && deductCoin <= maxCoin
      && (otherMin.Some? ==> otherMin.value <= if baseCoin then deductPc else deductCoin)
  {
    hide CheckedCeilDiv, IsRoundedUp;
    var (deductPc, deductCoin, mint) := DepositAmounts(pc, coin, lp, maxCoin, maxPc, baseCoin, otherMin).value;
    if baseCoin {
      RoundedUpIs(maxCoin * pc, coin);
      FloorIs(lp * maxCoin, coin);
      CoversWorth(deductPc, maxCoin * pc, coin);
      FairShares(coin, maxCoin, pc, deductPc, lp, mint);
    } else {
      RoundedUpIs(maxPc * coin, pc);
      FloorIs(lp * maxPc, pc);
      CoversWorth(deductCoin, maxPc * coin, pc);
      FairShares(pc, maxPc, coin, deductCoin, lp, mint);
    }
  }

  lemma CoversWorth(q: nat, n: nat, d: nat)
    requires IsRoundedUp(q, n, d)
    ensures q != 0 ==> n <= q * d
  {
  }

  lemma FairShares(base: nat, paid: nat, other: nat, otherPaid: nat, lp: nat, mint: nat)
    requires 0 < base && IsFloor(mint, lp * paid, base)
    requires otherPaid != 0 ==> paid * other <= otherPaid * base
    ensures base * mint <= paid * lp
    ensures otherPaid != 0 ==> other * mint <= otherPaid * lp
  {
    if otherPaid == 0 {
      return;
    }
    MulMono(mint * base, lp * paid, other);
    assert (lp * paid) * other == lp * (paid * other);
    MulMono(paid * other, otherPaid * base, lp);
    assert (otherPaid * base) * lp == (otherPaid * lp) * base;
    SwapFactors(mint, base, other);
    MulCancelLe(mint * other, otherPaid * lp, base);
  }

  /** What a successful deposit does, in terms of the taking before it: the vaults and the LP
      rise by just what the base side's maximum is worth. */
  ghost predicate Deposited(
    l: Ledger, k: Taken, m: Ledger, maxCoin: u64, maxPc: u64, baseCoin: bool, deductPc: u64, deductCoin: u64, mint: u64)
  {
    && m.pcVault == l.pcVault + deductPc && m.coinVault == l.coinVault + deductCoin
    && m.needPc == k.ledger.needPc && m.needCoin == k.ledger.needCoin
    && m.lpAmount == l.lpAmount + mint && m.lpSupply == l.lpSupply + mint
    && 0 < deductPc <= maxPc && 0 < deductCoin <= maxCoin && 0 < mint
    && IsDeposit(k.t.pcLeft, k.t.coinLeft, l.lpAmount, maxCoin, maxPc, baseCoin, deductPc, deductCoin, mint)
    && k.t.pcLeft * mint <= deductPc * l.lpAmount
    && k.t.coinLeft * mint <= deductCoin * l.lpAmount
  }

  lemma DepositIsFair(
    l: Ledger, maxCoin: u64, maxPc: u64, baseSide: u64, otherMin: Option<u64>, userCoin: u64, userPc: u64)
    returns (k: Taken, m: Ledger, deductPc: u64, deductCoin: u64, mint: u64)
    requires Solvent(l)
    requires Deposit(l, maxCoin, maxPc, baseSide, otherMin, userCoin, userPc).Success?
    ensures TakePnl(l, PcReserve(l), CoinReserve(l)) == Success(k)
    ensures Deposit(l, maxCoin, maxPc, baseSide, otherMin, userCoin, userPc) == Success(m)
    ensures Deposited(l, k, m, maxCoin, maxPc, baseSide == 0, deductPc, deductCoin, mint)
    ensures otherMin.Some? ==> otherMin.value <= if baseSide == 0 then deductPc else deductCoin
  {
    hide Pnl.CalcTakePnl, PoolLedger.DepositAmounts, IsDeposit;
    m := Deposit(l, maxCoin, maxPc, baseSide, otherMin, userCoin, userPc).value;
    k := TakePnl(l, PcReserve(l), CoinReserve(l)).value;
    var amounts := DepositAmounts(
      k.t.pcLeft, k.t.coinLeft, l.lpAmount, maxCoin, maxPc, baseSide == 0, otherMin);
    deductPc, deductCoin, mint := amounts.value.0, amounts.value.1, amounts.value.2;
    DepositAmountsFair(k.t.pcLeft, k.t.coinLeft, l.lpAmount, maxCoin, maxPc, baseSide == 0, otherMin);
  }

  /** A deposit keeps pc per LP and coin per LP, and so product per squared LP, from
      falling, against the reserves left by its taking. */
  lemma DepositKeepsLpValue(
    l: Ledger, maxCoin: u64, maxPc: u64, baseSide: u64, otherMin: Option<u64>, userCoin: u64, userPc: u64)
    requires Solvent(l)
    requires Deposit(l, maxCoin, maxPc, baseSide, otherMin, userCoin, userPc).Success?
    ensures TakePnl(l, PcReserve(l), CoinReserve(l)).Success?
    ensures var k := TakePnl(l, PcReserve(l), CoinReserve(l)).value;
      var m := Deposit(l, maxCoin, maxPc, baseSide, otherMin, userCoin, userPc).value;
      && Solvent(m)
      && NotDiluted(k.t.pcLeft, l.lpAmount, PcReserve(m), m.lpAmount)
      && NotDiluted(k.t.coinLeft, l.lpAmount, CoinReserve(m), m.lpAmount)
      && (k.t.pcLeft * k.t.coinLeft) * (m.lpAmount * m.lpAmount)
         <= (PcReserve(m) * CoinReserve(m)) * (l.lpAmount * l.lpAmount)
  {
    var k, m, deductPc, deductCoin, mint :=
      DepositIsFair(l, maxCoin, maxPc, baseSide, otherMin, userCoin, userPc);
    DepositedKeepsValue(l, k, m, maxCoin, maxPc, baseSide == 0, deductPc, deductCoin, mint);
  }

  lemma DepositedKeepsValue(
    l: Ledger, k: Taken, m: Ledger, maxCoin: u64, maxPc: u64, baseCoin: bool, deductPc: u64, deductCoin: u64, mint: u64)
    requires Solvent(l) && TakePnl(l, PcReserve(l), CoinReserve(l)) == Success(k)
    requires Deposited(l, k, m, maxCoin, maxPc, baseCoin, deductPc, deductCoin, mint)
    ensures Solvent(m)
    ensures PcReserve(m) == k.t.pcLeft + deductPc && CoinReserve(m) == k.t.coinLeft + deductCoin
    ensures NotDiluted(k.t.pcLeft, l.lpAmount, PcReserve(m), m.lpAmount)
    ensures NotDiluted(k.t.coinLeft, l.lpAmount, CoinReserve(m), m.lpAmount)
    ensures (k.t.pcLeft * k.t.coinLeft) * (m.lpAmount * m.lpAmount)
      <= (PcReserve(m) * CoinReserve(m)) * (l.lpAmount * l.lpAmount)
  {
    hide Pnl.CalcTakePnl, IsDeposit, NotDiluted;
    TakenReserves(l, k);
    hide TakePnl;
    PaymentKeepsShare(k.t.pcLeft, deductPc, l.lpAmount, mint);
    PaymentKeepsShare(k.t.coinLeft, deductCoin, l.lpAmount, mint);
    ProductNotDiluted(k.t.pcLeft, k.t.coinLeft, l.lpAmount, PcReserve(m), CoinReserve(m), m.lpAmount);
  }

  lemma PaymentKeepsShare(left: nat, paid: nat, lp: nat, mint: nat)
    requires left * mint <= paid * lp
    ensures NotDiluted(left, lp, left + paid, lp + mint)
  {
    Distribute(left, paid, lp);
    Distribute(lp, mint, left);
  }

  /** A withdrawal's payout on one side is its share, rounded down. */
  lemma PayoutIsShare(reserve: u64, amount: u64, lp: u64)
    requires amount < lp && ExchangeFloor(reserve, amount, lp).Success?
    ensures var out := ExchangeFloor(reserve, amount, lp).value;
      && IsFloor(out, reserve * amount, lp)
      && out <= reserve
      && NotDiluted(reserve, lp, reserve - out, lp - amount)
  {
    var out := ExchangeFloor(reserve, amount, lp).value;
    FloorIs(reserve * amount, lp);
    MulMono(amount, lp, reserve);
    DivAtMost(reserve * amount, lp, reserve);
    Distribute(reserve, out, lp);
    Distribute(lp, amount, reserve);
  }

  /** What a successful withdrawal does, in terms of the taking before it. */
  ghost predicate Withdrawn(l: Ledger, k: Taken, m: Ledger, amount: u64) {
    && amount < l.lpAmount
    && k.t.pcLeft + k.t.takePc == l.pcVault - l.needPc
    && k.t.coinLeft + k.t.takeCoin == l.coinVault - l.needCoin
    && m.needPc == l.needPc + k.t.takePc && m.needCoin == l.needCoin + k.t.takeCoin
    && m.lpAmount == l.lpAmount - amount && m.lpSupply == l.lpSupply - amount
    && m.pcVault <= l.pcVault && m.coinVault <= l.coinVault
    && ExchangeFloor(k.t.pcLeft, amount, l.lpAmount) == Success(l.pcVault - m.pcVault)
    && ExchangeFloor(k.t.coinLeft, amount, l.lpAmount) == Success(l.coinVault - m.coinVault)
  }

  lemma WithdrawIsShare(l: Ledger, amount: u64, minCoin: Option<u64>, minPc: Option<u64>, userLp: u64)
    returns (k: Taken, m: Ledger)
    requires Solvent(l) && Withdraw(l, amount, minCoin, minPc, userLp).Success?
    ensures TakeUnlessWithdrawOnly(l, PcReserve(l), CoinReserve(l)) == Success(k)
    ensures Withdraw(l, amount, minCoin, minPc, userLp) == Success(m)
    ensures Withdrawn(l, k, m, amount)
  {
    hide Pnl.CalcTakePnl, PoolLedger.ExchangeFloor, PoolLedger.BaselineDown;
    k := TakeUnlessWithdrawOnly(l, PcReserve(l), CoinReserve(l)).value;
    m := Withdraw(l, amount, minCoin, minPc, userLp).value;
    if !l.status.WithdrawOnly? {
      TakenReserves(l, k);
    }
  }

  /** A withdrawal keeps what the remaining LP stands for from falling. */
  lemma WithdrawKeepsLpValue(l: Ledger, amount: u64, minCoin: Option<u64>, minPc: Option<u64>, userLp: u64)
    requires Solvent(l) && Withdraw(l, amount, minCoin, minPc, userLp).Success?
    ensures TakeUnlessWithdrawOnly(l, PcReserve(l), CoinReserve(l)).Success?
    ensures var k := TakeUnlessWithdrawOnly(l, PcReserve(l), CoinReserve(l)).value;
      var m := Withdraw(l, amount, minCoin, minPc, userLp).value;
      var pc, coin := m.pcVault - m.needPc, m.coinVault - m.needCoin;
      && 0 <= pc && 0 <= coin
      && NotDiluted(k.t.pcLeft, l.lpAmount, pc, m.lpAmount)
      && NotDiluted(k.t.coinLeft, l.lpAmount, coin, m.lpAmount)
      && (k.t.pcLeft * k.t.coinLeft) * (m.lpAmount * m.lpAmount) <= (pc * coin) * (l.lpAmount * l.lpAmount)
  {
    hide Pnl.CalcTakePnl, PoolLedger.Withdraw;
    var k, m := WithdrawIsShare(l, amount, minCoin, minPc, userLp);
    PayoutIsShare(k.t.pcLeft, amount, l.lpAmount);
    PayoutIsShare(k.t.coinLeft, amount, l.lpAmount);
    ProductNotDiluted(k.t.pcLeft, k.t.coinLeft, l.lpAmount,
      m.pcVault - m.needPc, m.coinVault - m.needCoin, m.lpAmount);
  }

  /** Depositing and at once withdrawing the LP it minted returns no more of either
      token than was paid in. */
  lemma DepositThenWithdrawGainsNothing(
    l: Ledger, maxCoin: u64, maxPc: u64, baseSide: u64, otherMin: Option<u64>, userCoin: u64, userPc: u64,
    mint: u64, minCoin: Option<u64>, minPc: Option<u64>, userLp: u64, m: Ledger, w: Ledger)
    requires Solvent(l)
    requires Deposit(l, maxCoin, maxPc, baseSide, otherMin, userCoin, userPc) == Success(m)
    requires m.lpSupply == l.lpSupply + mint
    requires Withdraw(m, mint, minCoin, minPc, userLp) == Success(w)
    ensures w.lpSupply == l.lpSupply && w.lpAmount == l.lpAmount
    ensures l.pcVault <= w.pcVault && l.coinVault <= w.coinVault
  {
    hide Pnl.CalcTakePnl, PoolLedger.Deposit, PoolLedger.Withdraw;
    var k, m', deductPc, deductCoin, mint' :=
      DepositIsFair(l, maxCoin, maxPc, baseSide, otherMin, userCoin, userPc);
    DepositedKeepsValue(l, k, m, maxCoin, maxPc, baseSide == 0, deductPc, deductCoin, mint);
    var k', w' := WithdrawIsShare(m, mint, minCoin, minPc, userLp);
    SharePaidBack(k.t.pcLeft, deductPc, l.lpAmount, mint, k'.t.pcLeft, m.pcVault - w.pcVault);
    SharePaidBack(k.t.coinLeft, deductCoin, l.lpAmount, mint, k'.t.coinLeft, m.coinVault - w.coinVault);
  }

  lemma SharePaidBack(before: nat, paid: nat, lp: nat, mint: nat, after: nat, out: nat)
    requires 0 < lp + mint
    requires before * mint <= paid * lp && after <= before + paid
    requires out == (after * mint) / (lp + mint)
    ensures out <= paid
  {
    MulMono(after, before + paid, mint);
    Distribute(before, paid, mint);
    assert paid * (lp + mint) == paid * lp + paid * mint;
    DivAtMost(after * mint, lp + mint, paid);
  }
}
