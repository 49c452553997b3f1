/** Pool status and fee settings. */
module State {
  import opened Checked
  import opened Curve
  import opened Pnl

  datatype Status =
    | Uninitialized
    | Initialized
    | Disabled
    | WithdrawOnly
    | LiquidityOnly
    | OrderBookOnly
    | SwapOnly
    | WaitingTrade
  {
    predicate DepositPermission() {
      Initialized? || LiquidityOnly? || OrderBookOnly? || SwapOnly? || WaitingTrade?
    }

    predicate WithdrawPermission() {
      DepositPermission() || WithdrawOnly?
    }

    predicate SwapPermission() {
      Initialized? || SwapOnly? || WaitingTrade?
    }

    predicate OrderbookPermission() {
      Initialized? || OrderBookOnly?
    }
  }

  const TEN_THOUSAND: u64 := 10000

  datatype Fees = Fees(
    minSeparateNumerator: u64, minSeparateDenominator: u64,
    tradeFeeNumerator: u64, tradeFeeDenominator: u64,
    pnlNumerator: u64, pnlDenominator: u64,
    swapFeeNumerator: u64, swapFeeDenominator: u64)
  {
    function Pnl(): PnlFee {
      PnlFee(pnlNumerator, pnlDenominator)
    }

    function Swap(): SwapFee {
      SwapFee(swapFeeNumerator, swapFeeDenominator)
    }

    /** Every fraction is proper. */
    predicate Validate() {
      && minSeparateNumerator < minSeparateDenominator
      && tradeFeeNumerator < tradeFeeDenominator
      && Pnl().Valid()
      && Swap().Valid()
    }
  }

  const DEFAULT_FEES: Fees := Fees(5, TEN_THOUSAND, 25, TEN_THOUSAND, 12, 100, 25, TEN_THOUSAND)

  datatype Option<+T> = None | Some(value: T)
}
