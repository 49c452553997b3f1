/** The recorded baseline over whole runs: which profit shares let it fall. */
module BaselineRuns {
  import opened Checked
  import opened Arith
  import opened Curve
  import opened Decimals
  import opened Pnl
  import opened Baseline
  import opened State
  import opened PoolLedger
  import opened Solvency
  import opened PnlErrors
  import opened Vaults
  import opened Runs

  predicate BelowHalf(f: PnlFee) {
    2 * f.numerator < f.denominator
  }

  /** Liquidity is not redeemed and the pool does not move, both of which lower the
      baseline by design. */
  predicate IsGrowth(step: Step) {
    !step.DoWithdraw? && !step.DoMigrate?
  }

  /** Any fees set leave the protocol less than one half. */
  predicate SetsBelowHalf(step: Step) {
    step.SetFees? ==> BelowHalf(step.fees.Pnl())
  }

  function BaselineProduct(l: Ledger): nat {
    l.calcX * l.calcY
  }

  // ---- One step ----

  lemma TakingKeepsProduct(l: Ledger)
    requires Inv(l) && BelowHalf(l.fees.Pnl()) && TakePnl(l, PcReserve(l), CoinReserve(l)).Success?
    ensures var k := TakePnl(l, PcReserve(l), CoinReserve(l)).value;
      && k.t.deltaX <= k.x1 && k.t.deltaY <= k.y1
      && BaselineProduct(l) <= (k.x1 - k.t.deltaX) * (k.y1 - k.t.deltaY)
      && k.ledger.scale == l.scale && k.ledger.fees == l.fees
  {
    hide CalcTakePnl, Normalize, Normalized, InitScale;
    ReservesAreRead(l);
    TakingNeverLowersBaseline(
      l.scale, l.fees.Pnl(), l.calcX, l.calcY, PcReserve(l), CoinReserve(l), ReserveX(l), ReserveY(l));
  }

  /** A deposit records the readings less the cuts and adds what it deducts. */
  lemma AddLiquidityKeepsProduct(l: Ledger, k: Taken, deductPc: u64, deductCoin: u64, mint: u64)
    requires AddLiquidity(l, k, deductPc, deductCoin, mint).Success?
    requires k.t.deltaX <= k.x1 && k.t.deltaY <= k.y1
    ensures var m := AddLiquidity(l, k, deductPc, deductCoin, mint).value;
      && (k.x1 - k.t.deltaX) * (k.y1 - k.t.deltaY) <= BaselineProduct(m)
      && m.scale == k.ledger.scale && m.fees == k.ledger.fees
  {
    hide Normalize;
    var m := AddLiquidity(l, k, deductPc, deductCoin, mint).value;
    MulMono2(k.x1 - k.t.deltaX, k.y1 - k.t.deltaY, m.calcX, m.calcY);
  }

  lemma DepositKeepsProduct(
    l: Ledger, maxCoin: u64, maxPc: u64, baseSide: u64, otherMin: Option<u64>, userCoin: u64, userPc: u64)
    requires Inv(l) && BelowHalf(l.fees.Pnl())
    requires Deposit(l, maxCoin, maxPc, baseSide, otherMin, userCoin, userPc).Success?
    ensures Grows(l, Deposit(l, maxCoin, maxPc, baseSide, otherMin, userCoin, userPc).value)
  {
    hide TakePnl, DepositAmounts, AddLiquidity, InitScale, ReserveX, ReserveY;
    assert Totals(l) == Success((PcReserve(l), CoinReserve(l)));
    TakingKeepsProduct(l);
    var k := TakePnl(l, PcReserve(l), CoinReserve(l)).value;
    var (deductPc, deductCoin, mint) := DepositAmounts(
      k.t.pcLeft, k.t.coinLeft, l.lpAmount, maxCoin, maxPc, baseSide == 0, otherMin).value;
    AddLiquidityKeepsProduct(l, k, deductPc, deductCoin, mint);
  }

  lemma PayoutKeepsProduct(l: Ledger)
    requires Inv(l) && BelowHalf(l.fees.Pnl()) && WithdrawPnl(l).Success?
    ensures Grows(l, WithdrawPnl(l).value)
  {
    hide TakePnl, InitScale, ReserveX, ReserveY;
    TakingKeepsProduct(l);
  }

  /** The baseline is no lower, the scale the same and the share still below one half. */
  predicate Grows(l: Ledger, m: Ledger) {
    BaselineProduct(l) <= BaselineProduct(m) && m.scale == l.scale && BelowHalf(m.fees.Pnl())
  }

  lemma StepNeverLowersBaseline(l: Ledger, step: Step)
    requires Inv(l) && BelowHalf(l.fees.Pnl()) && IsGrowth(step) && SetsBelowHalf(step)
    ensures Grows(l, Exec(l, step))
  {
    hide InitScale, Deposit, Withdraw, WithdrawPnl, Migrate, SwapIn, SwapOut, ReserveX, ReserveY;
    if Apply(l, step).Success? {
      match step {
        case DoSwapIn(_, _, _, _, _) => SwapKeepsProduct(l, step);
        case DoSwapOut(_, _, _, _, _) => SwapKeepsProduct(l, step);
        case DoDeposit(maxCoin, maxPc, baseSide, otherMin, userCoin, userPc) =>
          DepositKeepsProduct(l, maxCoin, maxPc, baseSide, otherMin, userCoin, userPc);
        case DoWithdrawPnl => PayoutKeepsProduct(l);
        case Donate(_, _) =>
        case SetStatus(_) =>
        case SetFees(_) =>
        case BurnLp(_) =>
      }
    }
  }

  // ---- Whole runs ----

  predicate GrowthRun(steps: seq<Step>) {
    forall i :: 0 <= i < |steps| ==> IsGrowth(steps[i])
  }

  predicate SharesBelowHalf(steps: seq<Step>) {
    forall i :: 0 <= i < |steps| ==> SetsBelowHalf(steps[i])
  }

  /** Swaps, donations, deposits, profit payouts and settings, in any order and number,
      never lower the baseline while the share stays below one half. */
  lemma {:induction false} RunNeverLowersBaseline(l: Ledger, steps: seq<Step>)
    requires Inv(l) && IntegerScales(l) && BelowHalf(l.fees.Pnl())
    requires GrowthRun(steps) && SharesBelowHalf(steps)
    ensures BaselineProduct(l) <= BaselineProduct(Run(l, steps))
    decreases |steps|
  {
    hide Inv, Apply, IsGrowth, SetsBelowHalf, BelowHalf, BaselineProduct;
    if steps != [] {
      StepNeverLowersBaseline(l, steps[0]);
      StepKeepsInv(l, steps[0]);
      RunNeverLowersBaseline(Exec(l, steps[0]), steps[1..]);
    }
  }

  // ---- A run that lowers it ----

  /** Thirteen pc and forty-three coin units of no decimals on the plainest market. */
  const SMALL: Creation := Creation(13, 43, 0, 0, 1, 1, 0, 0)

  function WithShare(f: PnlFee): Fees {
    DEFAULT_FEES.(pnlNumerator := f.numerator, pnlDenominator := f.denominator)
  }

  /** Seven pc units are swapped in, three coin units sent, the share is set and the
      profit is paid out. */
  function LoweringRun(f: PnlFee): seq<Step> {
    [DoSwapIn(PC2Coin, 7, 0, 7, 0), Donate(0, 3), SetFees(WithShare(f)), DoWithdrawPnl]
  }

  predicate IsSmall(l: Ledger, pc: u64, coin: u64, fees: Fees) {
    && l.status == SwapOnly && l.scale == Scale(0, 0, 1, 1, 1, 1) && l.fees == fees
    && l.pcVault == pc && l.coinVault == coin && l.needPc == 0 && l.needCoin == 0
    && l.totalPnlPc == 0 && l.totalPnlCoin == 0 && l.swaps.pcIn <= 7 && l.swaps.coinOut <= 15 && l.swaps.accPcFee == 0
    && l.calcX == 13 && l.calcY == 43
  }

  lemma SmallCreation(c: Creation)
    requires c == SMALL
    ensures WholeMarket(c.coinDecimals, c.pcDecimals, c.coinLot, c.pcLot)
    ensures Create(c).Success? && IsSmall(Create(c).value, 13, 43, DEFAULT_FEES)
    ensures Create(c).value.swaps == NO_SWAPS
  {
    assert Pow10(0) == 1;
    SqrtUnique(23, c.pcVault * c.coinVault);
  }

  /** The fee on seven units rounds to nothing, and they buy fifteen. */
  lemma SmallSwap(l: Ledger)
    requires IsSmall(l, 13, 43, DEFAULT_FEES) && l.swaps == NO_SWAPS
    ensures IsSmall(Exec(l, DoSwapIn(PC2Coin, 7, 0, 7, 0)), 20, 28, DEFAULT_FEES)
  {
    var amountIn: u64, rIn: u64, rOut: u64 := 7, 13, 43;
    assert BaseInWithFee(amountIn, rIn, rOut, DEFAULT_FEES.Swap()) == Success((15, 0));
    hide BaseInWithFee;
  }

  lemma SmallTaking(l: Ledger, f: PnlFee)
    requires f.Valid() && !BelowHalf(f) && Sound(l) && IsSmall(l, 20, 31, WithShare(f))
    ensures var r := TakePnl(l, PcReserve(l), CoinReserve(l));
      && r.Success? && r.value.x1 == 20 && r.value.y1 == 31
      && r.value.t.deltaX <= 20 && r.value.t.deltaY <= 31
      && (20 - r.value.t.deltaX) * (31 - r.value.t.deltaY) < 13 * 43
  {
    hide CalcTakePnl, Normalize, Normalized, InitScale;
    assert Pow10(0) == 1;
    assert ReserveX(l) == 20 && ReserveY(l) == 31 by { SmallReading(20); SmallReading(31); }
    ReservesAreRead(l);
    HalfShareLowersBaseline(f);
  }

  lemma SmallReading(v: u64)
    ensures Normalized(v, Pow10(0), 1) == v
  {
  }

  lemma SmallPayout(l: Ledger, f: PnlFee)
    requires f.Valid() && !BelowHalf(f) && Sound(l) && IsSmall(l, 20, 31, WithShare(f))
    ensures BaselineProduct(Exec(l, DoWithdrawPnl)) < 13 * 43
  {
    hide TakePnl, InitScale, WithShare, BelowHalf, ReserveX, ReserveY;
    SmallTaking(l, f);
    WithdrawPnlErrors(l);
  }

  lemma LoweringRunLowers(c: Creation, f: PnlFee)
    requires f.Valid() && !BelowHalf(f) && c == SMALL
    ensures Create(c).Success?
    ensures BaselineProduct(Run(Create(c).value, LoweringRun(f))) < BaselineProduct(Create(c).value)
  {
    hide Create, Apply, BelowHalf, Sound;
    SmallCreation(c);
    var l := Create(c).value;
    var steps := LoweringRun(f);
    var swapped := Exec(l, steps[0]);
    SmallSwap(l);
    var donated := Exec(swapped, steps[1]);
    var shared := Exec(donated, steps[2]);
    SmallSettings(swapped, f);
    assert Created(l);
    CreatedIsSound(l);
    StepKeepsSound(l, steps[0]);
    StepKeepsSound(swapped, steps[1]);
    StepKeepsSound(donated, steps[2]);
    SmallPayout(shared, f);
    RunOfFour(l, steps);
  }

  lemma SmallSettings(l: Ledger, f: PnlFee)
    requires f.Valid() && IsSmall(l, 20, 28, DEFAULT_FEES)
    ensures IsSmall(Exec(Exec(l, Donate(0, 3)), SetFees(WithShare(f))), 20, 31, WithShare(f))
  {
  }

  lemma RunOfFour(l: Ledger, steps: seq<Step>)
    requires |steps| == 4
    ensures Run(l, steps) == Exec(Exec(Exec(Exec(l, steps[0]), steps[1]), steps[2]), steps[3])
  {
    hide Exec;
    var a := Exec(l, steps[0]);
    var b := Exec(a, steps[1]);
    var d := Exec(b, steps[2]);
    assert steps[1..][1..] == steps[2..] && steps[2..][1..] == steps[3..] && steps[3..][1..] == [];
    assert Run(a, steps[1..]) == Run(b, steps[2..]);
    assert Run(b, steps[2..]) == Run(d, steps[3..]);
    assert Run(d, steps[3..]) == Run(Exec(d, steps[3]), []);
  }

  // ---- Which shares are safe ----

  /** The only share ever set is `f`. */
  predicate SetsOnly(f: PnlFee, steps: seq<Step>) {
    forall i :: 0 <= i < |steps| && steps[i].SetFees? ==> steps[i].fees.Pnl() == f
  }

  /** Under this share no growing run of a pool on a whole market lowers its baseline. */
  ghost predicate NeverLowers(f: PnlFee) {
    forall c: Creation, steps: seq<Step> ::
      Create(c).Success? && WholeMarket(c.coinDecimals, c.pcDecimals, c.coinLot, c.pcLot)
      && GrowthRun(steps) && SetsOnly(f, steps)
      ==> BaselineProduct(Create(c).value) <= BaselineProduct(Run(Create(c).value, steps))
  }

  /** Over whole runs too, the safe shares are exactly those below one half. */
  lemma RunsSafeIffShareBelowHalf(f: PnlFee)
    requires f.Valid()
    ensures NeverLowers(f) <==> BelowHalf(f)
  {
    hide Create, Run, BaselineProduct;
    if BelowHalf(f) {
      forall c: Creation, steps: seq<Step>
        | Create(c).Success? && WholeMarket(c.coinDecimals, c.pcDecimals, c.coinLot, c.pcLot)
          && GrowthRun(steps) && SetsOnly(f, steps)
        ensures BaselineProduct(Create(c).value) <= BaselineProduct(Run(Create(c).value, steps))
      {
        CreatedBelowHalf(c);
        RunNeverLowersBaseline(Create(c).value, steps);
      }
    } else {
      var c, steps := SMALL, LoweringRun(f);
      SmallCreation(c);
      LoweringRunLowers(c, f);
      assert GrowthRun(steps) && SetsOnly(f, steps);
    }
  }

  /** A new pool starts with a share of twelve in a hundred. */
  lemma CreatedBelowHalf(c: Creation)
    requires Create(c).Success? && WholeMarket(c.coinDecimals, c.pcDecimals, c.coinLot, c.pcLot)
    ensures var l := Create(c).value; Inv(l) && IntegerScales(l) && BelowHalf(l.fees.Pnl())
  {
    assert Created(Create(c).value);
    CreatedIsKept(Create(c).value);
    hide InitScale, Inv, WholeScale;
  }
}
