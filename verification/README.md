# A verified model of the hybrid AMM program

The program holds a pool of two tokens (`pc` and `coin`), mints LP shares against it,
takes a protocol share of the pool's growth over a recorded baseline, and spreads the
pool's liquidity as a Fibonacci ladder of limit orders that a resumable crank plans,
places, purges and cancels. This project models those parts in Dafny and proves what
every step and every run of them keeps.

`dafny verify dfyconfig.toml` checks the whole project.

## How the model is laid out

| File | Content |
|---|---|
| `Checked.dfy` | integer widths, error codes, and checked operations whose failure means "no step" |
| `Arith.dfy` | products, floors, powers of ten; the floor square root and Newton's iteration for it |
| `CeilDiv.dfy` | the program's rounding-up division and its refitted divisor |
| `Decimals.dfy` | native and normalised amounts, and how a pool's scale is derived from its market |
| `Curve.dfy`, `SwapAmounts.dfy` | base-in and base-out swap formulas, with and without fees; what a swap moves and when it goes through |
| `Pnl.dfy`, `Baseline.dfy`, `PnlErrors.dfy`, `ProfitAmounts.dfy` | the profit computation; what it does to reserves and baseline; exactly when it fails; every amount of it, of payouts, moves and creation |
| `State.dfy` | statuses, permissions, fees |
| `PoolLedger.dfy` | the ledger of a pool without an order book, its instructions as functions |
| `Solvency.dfy`, `Vaults.dfy` | invariants over every step and run, on whole scales and on all |
| `Runs.dfy`, `BaselineRuns.dfy`, `Scales.dfy`, `FractionalCases.dfy` | what holds of every pool and which errors are reachable; which profit shares let the baseline fall; which markets keep it covered |
| `Liquidity.dfy`, `LiquidityAmounts.dfy` | LP value over deposits and withdrawals; what they move and when they go through |
| `Pool.dfy` | the pool account as an object updated in place, proved against the ledger |
| `Planner.dfy`, `Ladder.dfy`, `LadderCases.dfy` | planning the ladder, what a ladder promises, and when it aborts or touches the price |
| `Placement.dfy`, `PlacedOrders.dfy` | placing orders and their client ids; what each costs and which rungs are funded |
| `Crank.dfy`, `CrankDecisions.dfy` | the crank as a state machine; what each of its steps decides and books |
| `CrankSafety.dfy`, `CrankIds.dfy` | cursors, slots, ladders, progress and client ids over every run |
| `CrankAccount.dfy` | the crank as an object with its arrays and loops, proved against the state machine |
| `CancelBatch.dfy` | batching cancellations by eight |
| `Codec.dfy`, `CodecLayout.dfy` | the instruction codec; where each field stands |

A Rust `Err`, a failed `unwrap`, an arithmetic overflow (the release profile checks it),
an index out of range and `unreachable!` are all a `Failure`, after which nothing has
changed. Rust widths are integers with explicit bounds. Order of checks and error codes
follow the code.

Each piece of state the program rewrites in place is a class whose methods are proved
equal to a function of the old state (`Pool.Execute`, `PoolCrank.RunMonitorStep`); the
invariants are proved of those functions.

## What turned out sharper than, or different from, the code's comments

* **Taking profit and the baseline.** Taking profit never lowers the baseline exactly
  when the protocol's share is below one half (`BaselineSafeIffShareBelowHalf`): it is
  proved for every smaller share, and for every share of one half or more there is a
  concrete pool whose baseline falls. The same holds of whole runs: on whole scales no
  run of swaps, donations, deposits and profit payouts lowers the baseline exactly when
  the share that is set is below one half (`RunsSafeIffShareBelowHalf`).
* **When taking profit fails.** On every ledger a pool can reach, on whatever market, it
  reports its error exactly when the native guard compares false, and underflows exactly
  when the guard passes and the square of one more than the pc reading, times the coin
  reading, is at most the recorded product times the pc reading. Anything else that stops
  it is integer width (`EveryRunCanTakePnl`).
* **Whole scales.** Vaults exceed what is owed in every run on every market. That the
  reserves also cover the baseline in every run holds if and only if the market's lots
  give a scale that both tokens' units divide (`CoveredIffWholeMarket`, for every market's
  decimals and lots; the pool is then only moved to such markets). Markets whose lots give
  no scale, such as those whose base times five passes 64 bits, have no pools.
  `initialize` gives a whole scale whenever the lot ratio does not override the power of
  ten (`PlainMarketIsWhole`). On an overriding market a swap, a deposit, a withdrawal, a
  profit payout or a move there can each put the readings below the baseline
  (`FractionalCases`). That need not stop the next profit computation
  (`FractionalSwapUncovers`), but it can (`FractionalScaleUnderflows`).
* **The last withdrawal.** A withdrawal that leaves exactly one native unit of a side can
  underflow its baseline subtraction, because the normalised cut can exceed what the
  reading keeps of the native cut and that unit. `WithdrawSucceedsIff` gives the exact
  condition on every market and `LastRedemptionCanUnderflow` a pool whose whole LP supply
  cannot be redeemed at once.
* **Rounding up.** The comment on `checked_ceil_div` says that it fails when the divisor
  exceeds the dividend; the code returns one or zero there, and the model follows the
  code. Every nonzero quotient is the exact ceiling; zero is returned exactly when twice
  the dividend is below the divisor.
* **Fees that round to nothing.** The fee of an exact-in swap is the input's share rounded
  up, except that it is nothing while the share is below half a unit (`BaseInFits`): with
  the default 25 in 10000, on every input below 200 units.
* **Asks and the price.** Every bid is at or below the current price. Every ask is above
  it when the separation is positive; with no separation the nearest ask can equal it.
  `AskClearsPriceIff` says when, for moved and unmoved orders alike, and
  `AskCanTouchPrice` is a pool where a bid and an ask stand at the same price.
* **The last order.** Planning with fewer than three orders and an override can abort on
  the look two places back. `CallUnderflowsIff` says exactly when a planning call
  underflows, and `LastOrderCanAbort` is such a call.
* **Volumes on the exchange.** A planned volume loses nothing in the exchange's units
  exactly when the coin lot reads without a remainder (`ConversionIsExactIff`).

## Model

| member | source | states |
|---|---|---|
| `Arith.IntegerSqrt` | program/src/processor.rs:369 | the root taken of the recorded curve is the floor square root of its argument |
| `CeilDiv.QuotientIsCeiling` | program/src/math.rs:625-656 | a nonzero quotient is the exact ceiling, none exceeds it, and it is zero exactly when 2n < d |
| `CeilDiv.DivisorIsLeast` | program/src/math.rs:571-656 | once a whole divisor fits, the returned divisor is the least one with the same rounded-up quotient and never exceeds the given one |
| `Curve.BaseInIsLargestSafePayout` | program/src/math.rs:374-410 | the base-in payout is the largest that keeps the product |
| `Curve.BaseInReaches` | program/src/math.rs:374-410 | which inputs buy a target: exactly those at or above a ceiling |
| `Curve.BaseOutIsLeastInput` | program/src/math.rs:412-454 | a nonzero pre-fee base-out quote is the least input whose base-in payout reaches the target |
| `Curve.SplittingNeverPaysMore` | program/src/math.rs:374-410 | cutting one input into any number of pre-fee swaps never pays more in total |
| `Curve.BaseInKeepsProduct` | program/src/processor.rs:2393-2421 | with fees, an exact-in swap does not lower the product of the reserves |
| `Curve.BaseOutKeepsProduct` | program/src/processor.rs:2795-2837 | a charged exact-out swap does not lower it either |
| `Curve.ExactOutCoversExactIn` | program/src/processor.rs:2795-2818 | what an exact-out swap charges, fed to exact-in on the same pool with fees, buys at least the requested output |
| `Curve.BaseInFits` | program/src/processor.rs:2393-2406 | on 64-bit operands exact-in never overflows; its fee is the input's share rounded up, or nothing below half a unit, and its payout is the curve's for the rest |
| `Curve.BaseOutFitsIff` | program/src/processor.rs:2795-2818 | exact-out charges the output's price and then the fee on top, each rounded up or nothing below half a unit, and fails within 64 bits exactly when that charge leaves them |
| `SwapAmounts.SwapInIs` | program/src/processor.rs:2393-2618 | exactly when an exact-in swap goes through, and that it then moves the input and that payout and counts that fee |
| `SwapAmounts.SwapInMoves` | program/src/processor.rs:2393-2618 | by vault differences alone: what leaves is the curve's payout for the input less the fee counted |
| `SwapAmounts.SwapOutIs` | program/src/processor.rs:2795-3032 | exactly when an exact-out swap goes through, and that it then moves that charge and the output asked for |
| `SwapAmounts.SwapOutMoves` | program/src/processor.rs:2795-3032 | by vault differences alone: what is paid is the least charge, whatever the payer would have allowed |
| `Decimals.RoundTripLosesAtMostOne` | program/src/math.rs:102-122 | normalising and restoring an amount loses at most one unit |
| `Decimals.IntegerScaleIsExact` | program/src/math.rs:102-122 | on a whole scale the round trip is exact |
| `Decimals.InitScaleCoversUnits` | program/src/state.rs:773-837 | the derived base covers both tokens' units, and the minimum size is the normalised coin lot or zero |
| `Decimals.InitScaleIs` | program/src/state.rs:773-837 | which markets give a scale, and which base and price tick they give |
| `Decimals.InitPriceTick` | program/src/state.rs:773-837 | the price tick is at least one exactly when the base is not overridden or the lot ratio is whole |
| `Decimals.InitScaleIsInteger` | program/src/state.rs:773-837 | without the override both scales are whole |
| `Decimals.RebaseNeverRaises` | program/src/processor.rs:3272-3288 | re-basing on migration never raises a native baseline amount and lowers it by at most one |
| `Pnl.TakeProfit` | program/src/processor.rs:330-455 | the computation as written, root included, gives the specified cuts, remainders and errors |
| `Pnl.OldCurveBounds` | program/src/processor.rs:362-375 | the point on the recorded curve lies within the reserves and within one step of the curve |
| `Pnl.TakePnlOnlyOverflows` | program/src/processor.rs:330-455 | on or above the baseline the guard cannot fail and no subtraction underflows |
| `Pnl.FloorsCompose` | program/src/processor.rs:376-406 | a native cut scaled up never exceeds the normalised cut and is at most two units short of it |
| `Baseline.TakingConserves` | program/src/processor.rs:376-440 | cut plus remainder is the old reserve, each cut is at most its fraction of the profit, and native and normalised cuts are nonzero together |
| `Baseline.TakingLeavesReserves` | program/src/processor.rs:376-440 | on any scale a taking empties neither side and each normalised cut is worth less than the native cut and two units |
| `Baseline.TakingStaysAbove` | program/src/processor.rs:376-440 | the reduced readings that become the baseline exceed the readings of what is left by at most one unit a side on any scale, and by nothing on a whole one |
| `Baseline.TakingNeverLowersBaseline` | program/src/processor.rs:362-440 | below a share of one half the reduced reserves cover the old baseline despite every floor |
| `Baseline.HalfShareLowersBaseline` | program/src/processor.rs:362-440 | from a share of one half on there is a pool whose baseline falls |
| `Baseline.BaselineSafeIffShareBelowHalf` | program/src/processor.rs:362-440 | taking profit is safe for the baseline if and only if the share is below one half |
| `PnlErrors.TakingFailsIff` | program/src/processor.rs:330-455 | on every scale and baseline, exactly when the computation reports its error and exactly when it underflows; all else is integer width |
| `PnlErrors.LedgerTakingFailsIff` | program/src/processor.rs:330-455 | the same of a solvent pool's ledger, with nothing assumed of its baseline |
| `ProfitAmounts.TakingIs` | program/src/processor.rs:353-440 | every number of a completed taking by the floor that defines it, from the point on the recorded curve to the native cuts |
| `ProfitAmounts.LedgerTakingIs` | program/src/processor.rs:407-440 | on the ledger each token is owed its own cut and its total grows by its own profit |
| `ProfitAmounts.WithdrawPnlIs` | program/src/processor.rs:1812-1843 | a payout leaves the vaults what the taking left of the reserves, owes nothing and records the readings less the cuts |
| `ProfitAmounts.MigrateIs` | program/src/processor.rs:3126-3288 | what a move keeps, forgets and re-reads |
| `ProfitAmounts.Initialize2Is` | program/src/processor.rs:1144-1213 | what creation records: LP of the floor root with the coin unit locked, and the readings |
| `ProfitAmounts.Initialize2SucceedsIff` | program/src/processor.rs:1072-1213 | a pool can be created exactly on a market that gives a scale, with vaults whose product is at least the square of the coin unit |
| `Solvency.Initialize2Establishes` | program/src/processor.rs:1144-1213 | a created pool is solvent, on its baseline, with its locked LP outstanding |
| `Solvency.SwapKeepsInv` | program/src/processor.rs:2393-2429 | swaps keep the invariant |
| `Solvency.DepositKeepsInv` | program/src/processor.rs:1400-1591 | deposits keep it, with their own rounding of the baseline |
| `Solvency.WithdrawKeepsInv` | program/src/processor.rs:2118-2206 | withdrawals keep it |
| `Solvency.WithdrawPnlKeepsInv` | program/src/processor.rs:1812-1843 | so does paying out the protocol's profit |
| `Solvency.MigrateKeepsInv` | program/src/processor.rs:3126-3288 | and moving, from any market, to one with a whole scale |
| `Solvency.RunKeepsInv` | program/src/processor.rs:330-455 | and therefore every run of instructions, donations and LP burns on whole scales |
| `Vaults.StepKeepsSound` | program/src/processor.rs:834-3290 | on any scale every instruction keeps each vault above what is owed and LP accounting ahead of the mint |
| `Vaults.ProfitIsAlwaysPayable` | program/src/processor.rs:1812-1843 | neither paying out profit nor withdrawing can find the vaults short |
| `Runs.EveryRunIsSolvent` | program/src/math.rs:323-335 | on every reachable ledger of every market each vault strictly exceeds what is owed, and LP accounting exceeds the mint by the locked LP |
| `Runs.EveryRunCanPayProfit` | program/src/processor.rs:2160-2183 | so the profit error is unreachable in every run |
| `Runs.EveryRunCoversBaseline` | program/src/processor.rs:353-377 | on whole scales the reserves of every reachable ledger cover the baseline |
| `Runs.EveryRunCanTakePnl` | program/src/processor.rs:353-377 | on every reachable ledger of every market, exactly when taking profit reports its error and when it underflows; on whole scales it does neither |
| `Runs.WithdrawPnlErrors` | program/src/processor.rs:1812-1843 | paying out profit fails exactly when its taking fails, with the same error; where the baseline is covered that is an overflow |
| `Runs.DepositErrors` | program/src/processor.rs:1400-1591 | on any market a deposit fails with a refusal, an overflow or what stopped its taking; where the baseline is covered it meets no profit error and no underflow |
| `Runs.WithdrawErrors` | program/src/processor.rs:2118-2183 | on any market a withdrawal fails with a refusal, an overrun last unit or what stopped its taking; where the baseline is covered it cannot reach either profit error |
| `Runs.WithdrawSucceedsIff` | program/src/processor.rs:2118-2206 | on any market, past its checks a withdrawal succeeds if and only if it does not overrun the last unit of a side |
| `Runs.OverrunOnWholeScale` | program/src/processor.rs:2186-2206 | on a whole scale that is a cut over the native cut by more than the unit kept |
| `Runs.LastRedemptionCanUnderflow` | program/src/processor.rs:2186-2206 | a pool whose outstanding LP cannot all be redeemed at once |
| `Runs.SwapRunKeepsProduct` | program/src/processor.rs:2393-2421 | over any run of swaps the product of the reserves never falls and profit and baseline stay put |
| `Runs.SwapRunExtractsNothing` | program/src/processor.rs:2795-2837 | a run that ends with no more of one token leaves no less of the other |
| `BaselineRuns.RunNeverLowersBaseline` | program/src/processor.rs:1562-1591 | on whole scales no run of swaps, donations, deposits, profit payouts and settings lowers the recorded product while every share in force is below one half |
| `BaselineRuns.LoweringRunLowers` | program/src/processor.rs:1812-1843 | at every share of one half or more a created pool's swap, donation and profit payout lower it |
| `BaselineRuns.RunsSafeIffShareBelowHalf` | program/src/processor.rs:330-455 | such runs are safe for the baseline if and only if the share set is below one half |
| `Scales.WholeMarketsKeepWholeScales` | program/src/state.rs:773-837 | pools only ever put on markets with whole scales keep them |
| `Scales.PlainMarketIsWhole` | program/src/state.rs:773-837 | a market that does not override the power of ten is such a market |
| `Scales.WholeMarketsArePromised` | program/src/processor.rs:330-455 | every run of such a pool covers its baseline and can take profit until integers overflow |
| `Scales.CoveredIffWholeMarket` | program/src/state.rs:773-837 | every run of every pool on a market covers its baseline if and only if the market's lots, where they give a scale at all, give a whole one |
| `Scales.FractionalMarketFails` | program/src/processor.rs:2186-2206 | on every market whose lots give a fractional scale a created pool and one withdrawal put the baseline above the reserves |
| `FractionalCases.FractionalSwapUncovers` | program/src/processor.rs:2393-2421 | there one swap can do so, after which taking profit still meets neither its error nor an underflow |
| `FractionalCases.FractionalMoveUncovers` | program/src/processor.rs:3272-3288 | so can a move from a market with a whole scale |
| `FractionalCases.FractionalPayoutUncovers` | program/src/processor.rs:1812-1843 | so can a profit payout |
| `FractionalCases.FractionalDepositUncovers` | program/src/processor.rs:1562-1591 | so can a deposit |
| `FractionalCases.FractionalScaleUnderflows` | program/src/processor.rs:353-377 | and after one withdrawal the next profit computation can underflow |
| `Liquidity.DepositAmountsFair` | program/src/math.rs:467-523 | a deposit pays the base side's maximum and its worth of the other side rounded up, and mints the base side's share rounded down, within the caller's limits and at least its minted share on both sides |
| `Liquidity.DepositKeepsLpValue` | program/src/processor.rs:1420-1545 | after its taking a deposit keeps pc, coin and product per LP from falling |
| `Liquidity.WithdrawKeepsLpValue` | program/src/processor.rs:2118-2144 | so does a withdrawal |
| `Liquidity.DepositThenWithdrawGainsNothing` | program/src/processor.rs:1420-1545 | depositing and at once withdrawing the minted LP returns no more of either token |
| `LiquidityAmounts.DepositIs` | program/src/processor.rs:1400-1591 | exactly when a deposit goes through after its taking, and which tokens, LP and baseline it then writes |
| `LiquidityAmounts.DepositMoves` | program/src/processor.rs:1400-1591 | the same of the vault and LP differences alone |
| `LiquidityAmounts.WithdrawIs` | program/src/processor.rs:2118-2206 | exactly when a withdrawal goes through after its taking, and which tokens, LP and baseline it then writes |
| `LiquidityAmounts.WithdrawMoves` | program/src/processor.rs:2095-2206 | by vault differences alone: each side pays the LP's share, rounded down, of what the taking left, and a withdraw-only pool takes nothing first |
| `PoolAccount.Pool.CalcTakePnl` | program/src/processor.rs:330-455 | statistics and amounts owed are updated in place as the ledger says |
| `PoolAccount.Pool.ProcessDeposit` | program/src/processor.rs:1400-1591 | the account after a deposit is the ledger's deposit, or the same error |
| `PoolAccount.Pool.ProcessWithdraw` | program/src/processor.rs:2118-2206 | the account after a withdrawal is the ledger's |
| `PoolAccount.Pool.ProcessWithdrawPnl` | program/src/processor.rs:1812-1843 | the account after paying out profit is the ledger's |
| `PoolAccount.Pool.ProcessSwapBaseIn` | program/src/processor.rs:2393-2618 | the account after an exact-in swap is the ledger's |
| `PoolAccount.Pool.ProcessSwapBaseOut` | program/src/processor.rs:2795-3032 | the account after an exact-out swap is the ledger's |
| `PoolAccount.Pool.Execute` | program/src/processor.rs:834-3290 | any step leaves the account exactly as the ledger's step, and untouched when it fails |
| `Planner.Fibonacci` | program/src/math.rs:69-84 | the loop yields the Fibonacci distances |
| `Ladder.MarginsAreTight` | program/src/processor.rs:4429-4451 | the best bid and ask are the tightest prices outside the separation, and a grid step is each order's part of the depth, but a tick at least |
| `Ladder.QuotesBracketPrice` | program/src/processor.rs:4429-4463 | best bid and ask enclose the current price, and a grid step reaches no higher than it |
| `Ladder.BuySizeIsLargest` | program/src/math.rs:337-353 | a maximal bid is the largest that stays on the curve at the fee-laden price |
| `Ladder.SellSizeIsLargest` | program/src/math.rs:355-372 | a maximal ask is the largest likewise |
| `Ladder.QuantityInLots` | program/src/processor.rs:4518-4546 | a planned volume is no more than the maximum, whole coin lots, and zero or at least the minimum |
| `Ladder.QuantityIsSized` | program/src/processor.rs:4509-4531 | a volume is the maximal size less the held-back share, cut by less than one coin lot, or zero below the minimum |
| `Ladder.PlannedBuyIsPaidFor` | program/src/processor.rs:4501-4553 | the cost of a planned bid never exceeds the planned pc, and filling it does not lower the product |
| `Ladder.PlannedSellIsCovered` | program/src/processor.rs:4555-4614 | a planned ask never exceeds the planned coins, and all but one unit of it keeps the product |
| `Ladder.EveryOrderOnCurve` | program/src/processor.rs:4474-4619 | every order of a finished ladder, met in the pool the nearer ones leave, keeps the curve, is as large as the curve and the held-back share allow, and leaves the next pool when filled |
| `Ladder.RangeKeepsCurve` | program/src/processor.rs:4474-4619 | filling all bids in order does not lower the product |
| `Ladder.LadderIsMonotone` | program/src/processor.rs:4474-4615 | away from a moved last order bids fall and asks rise with distance |
| `Ladder.ChunksAgree` | program/src/processor.rs:4364-4629 | with the pool unchanged, any positive limits that cover the ladder give the one-call result or failure |
| `Ladder.CallIs` | program/src/processor.rs:4364-4427 | what one call records, exactly when it abandons the plan, and how far it advances |
| `Ladder.CallKeepsPlan` | program/src/processor.rs:4364-4629 | every call, at whatever pool and limit, leaves a plan one uninterrupted pass would have made |
| `Ladder.ReachablePlan` | program/src/processor.rs:4404-4615 | every reachable plan stands around the recorded pool's price in the common base, uncrossed, on whole ticks and lots, each order where its distance or the override puts it and on the curve at full size in the pool the nearer ones leave |
| `Ladder.AskClearsPriceIff` | program/src/processor.rs:4553-4573 | exactly when an ask, moved or not, lies above the current price |
| `LadderCases.AskCanTouchPrice` | program/src/processor.rs:4440-4451 | a pool without separation whose bid and ask stand at the current price |
| `LadderCases.CallUnderflowsIff` | program/src/processor.rs:4479-4499 | exactly when a planning call underflows: too wide a separation, or a last order moved below a tick with none two places nearer |
| `LadderCases.LastOrderCanAbort` | program/src/processor.rs:4493-4498 | a planning call that aborts at its only order, moved out below a tick |
| `Placement.NextClientId` | program/src/state.rs:848-854 | the next client id is nonzero and one more than the counter unless it wraps |
| `Placement.ConversionIsExactIff` | program/src/math.rs:200-242 | a whole-tick price loses nothing in the exchange's units, and a whole-lot volume loses nothing exactly when the coin lot reads without a remainder |
| `Placement.TakeIdReuses` | program/src/processor.rs:4780-4845 | a waiting live order is reused, once and in order, before any new id is drawn |
| `Placement.PlaceRangeKeepsDesk` | program/src/processor.rs:4751-4961 | placing any number of rungs keeps each side's ids distinct, nonzero and drawn, and never both placed and waiting |
| `Placement.PlaceRangeStaysInSlots` | program/src/processor.rs:4780-4907 | placing at the pace of one order a rung never leaves the ten id slots, whatever the ids |
| `Placement.RetainAppends` | program/src/processor.rs:4728-4737 | the waiting orders keep the order of the book |
| `PlacedOrders.PlaceBuyIs` | program/src/processor.rs:4751-4846 | a bid is funded exactly when its cost in the exchange's units is available, and then takes one id unless it is void |
| `PlacedOrders.PlaceRangeIs` | program/src/processor.rs:4751-4961 | a call is funded exactly when each of its rungs is, and places them in order up to the first that is not |
| `Placement.OpenSide` | program/src/processor.rs:4728-4737 | a call starts from distinct live orders that the round has not replaced |
| `CrankSafety.StepKeepsInv` | program/src/processor.rs:5480-5697 | every monitor step, parameter change, market move, trade, deposit and withdrawal keeps the crank's invariant |
| `CrankSafety.EveryRunIsSafe` | program/src/processor.rs:5480-5697 | over every run cursors fit the settings, unused phases are never entered, and rounds start from complete plans |
| `CrankSafety.EveryLadderIsSound` | program/src/processor.rs:4364-4629 | over every run each placed ladder is uncrossed, on whole ticks and lots, and on the curve |
| `CrankSafety.PlaceNeverRunsOutOfSlots` | program/src/processor.rs:4780-4907 | placing from a reachable state cannot index past the id slots |
| `CrankSafety.StepShrinks` | program/src/processor.rs:4618-4629 | a positive-limit step that stays in planning or placing has less left to do |
| `CrankSafety.WorkIsBounded` | program/src/processor.rs:4935-4971 | a ladder is planned and placed in at most twice its length of such steps, whatever trades meanwhile |
| `CrankIds.StepKeepsIds` | program/src/processor.rs:4728-4907 | with twenty ids left on the counter every step keeps the ids of a round and of the live orders apart |
| `CrankIds.EveryRoundHasDistinctIds` | program/src/processor.rs:4728-4907 | over every run short of the counter's wrap the ids of a round are distinct and nonzero on each side |
| `CrankIds.WrapCanRepeatId` | program/src/state.rs:848-854 | past the wrap an id can repeat |
| `CrankSafety.IdleTakesProfitOnce` | program/src/processor.rs:4327-4347 | an idle step writes the baseline exactly when it sets more aside, and below the baseline it only cancels |
| `CrankDecisions.IdleBooks` | program/src/processor.rs:4327-4347 | an idle step owes each token its own share of the growth over the recorded curve, and what is set aside and what is left add up to the totals |
| `CrankDecisions.IdleDecides` | program/src/processor.rs:4276-4347 | exactly when an idle step cancels and when it plans |
| `CrankDecisions.IdleThenPlans` | program/src/processor.rs:4296-4411 | an idle step and the planning call after it judge the same price |
| `CrankDecisions.PlanDecides` | program/src/processor.rs:4364-4629 | where a planning step leads and what it opens |
| `CrankDecisions.PlaceDecides` | program/src/processor.rs:4694-4971 | when a placing step cancels, starts over, goes on or records the round, and which orders it has placed |
| `CrankDecisions.MonitorIs` | program/src/processor.rs:5478-5697 | which calls are refused, and what resets, purges and cancellations do |
| `CrankDecisions.ParamsAre` | program/src/processor.rs:5253-5419 | which parameter values are accepted and which single setting each writes |
| `CrankDecisions.RelistIs` | program/src/processor.rs:3252-3269 | moving starts the crank and its ids anew and forgets what is owed |
| `CrankAccount.PoolCrank.PlanRungs` | program/src/processor.rs:4466-4629 | the planning loop over the order arrays computes the planned range |
| `CrankAccount.PoolCrank.PlanOrders` | program/src/processor.rs:4354-4629 | one planner call rewrites targets, cursors and arrays as specified |
| `CrankAccount.PoolCrank.PlaceRungs` | program/src/processor.rs:4751-4961 | the placing loop over the id arrays and queues computes the placed range |
| `CrankAccount.PoolCrank.RunIdle` | program/src/processor.rs:4259-4351 | the idle step in place |
| `CrankAccount.PoolCrank.RunMonitorStep` | program/src/processor.rs:5480-5697 | the account after a monitor step is the state machine's step, or the same error and the account as it was |
| `CrankAccount.PoolCrank.RunSetParams` | program/src/processor.rs:5260-5419 | every accepted parameter resets the crank, every other leaves an error and nothing else |
| `CancelBatch.CancelAllBatches` | program/src/processor.rs:5080-5100 | the interleaving loop stays within eight slots and its batches cover the interleaved orders, padded only at the end |
| `CancelBatch.PurgeBatches` | program/src/processor.rs:4998-5018 | the purge batches cover exactly the orders past the placed ones |
| `CancelBatch.InterleaveIsComplete` | program/src/processor.rs:2015-2035 | interleaving holds every order of both sides as often as it is live |
| `CancelBatch.BidPosition` | program/src/processor.rs:5721-5741 | where each bid comes, so bids keep their order |
| `CancelBatch.AskPosition` | program/src/processor.rs:5721-5741 | where each ask comes |
| `CancelBatch.CancelsEachOnce` | program/src/processor.rs:5080-5100 | the batches name every client id exactly as often as it is live |
| `Codec.PackThenUnpack` | program/src/instruction.rs:376-842 | whatever packs, unpacks to what packing keeps of it |
| `Codec.RoundTripIffCanonical` | program/src/instruction.rs:376-842 | the round trip is the identity if and only if the instruction is canonical |
| `Codec.PacksIff` | program/src/instruction.rs:646-842 | which instructions can be packed |
| `Codec.UnpackThenPack` | program/src/instruction.rs:376-842 | what unpacks is canonical and packs to a prefix of its bytes, unless it names the default key as config owner |
| `CodecLayout.PackLays` | program/src/instruction.rs:646-842 | packed bytes hold the tag and every field, little-endian, at its own offset, and nothing more |
| `Codec.ReadFees` | program/src/state.rs:533-581 | fees read back as written, whatever follows |
| `Codec.PackBuffer` | program/src/instruction.rs:646-842 | appending field by field builds the packed form, with the same refusals |

## Left out

- Order-book statuses of the ledger: `PoolLedger` covers the statuses whose totals are vault less owed; totals that include funds on the exchange (`calc_exact_vault_in_serum`) enter the crank as given numbers.
- The exchange: matching, event queues, settlement and free-slot bits are not modelled; live orders are sequences of client ids that trading may shrink or reorder, and a refused order is a failure.
- Funds while placing: what each rung can spend is an input, since the reload at program/src/processor.rs:4947-4948 reads the pc vault for both sides.
- Accounts: owner, signer, mint and address checks, token transfers' own failures, rent, logs and clocks; user balances and the time are parameters.
- SetOpenTime, SetSwitchTime, owner changes and other parameters that do not touch the crank appear only as "some other accepted parameter"; the status change's own check of funds on the exchange is not modelled.
- The admin config accounts, SRM withdrawal, simulation and pre-initialisation instructions, except for their bytes.
- Square root: the external crate's own algorithm is not part of this model; Newton's iteration stands in for it and is proved to be the floor root.
- Solvency.SwapKeepsInv: assumes a whole scale; on a fractional one a swap can put the readings below the baseline (`FractionalCases.FractionalSwapUncovers`).
- Solvency.DepositKeepsInv: assumes a whole scale; on a fractional one a deposit can do so (`FractionalCases.FractionalDepositUncovers`).
- Solvency.WithdrawKeepsInv: assumes a whole scale; on every fractional market a withdrawal can do so (`Scales.FractionalMarketFails`).
- Solvency.WithdrawPnlKeepsInv: assumes a whole scale; on a fractional one a payout can do so (`FractionalCases.FractionalPayoutUncovers`).
- Solvency.MigrateKeepsInv: assumes that the new market's scale is whole; a move to a fractional one can do so (`FractionalCases.FractionalMoveUncovers`).
- BaselineRuns.RunNeverLowersBaseline: leaves out withdrawals and migrations, which lower the baseline by design.
- Placement.PlaceRangeKeepsDesk: assumes two unused client ids a rung, as past the wrap an id can repeat (`CrankIds.WrapCanRepeatId`).
- CrankIds.StepKeepsIds: assumes twenty unused client ids on the counter, as ids can repeat once the 64-bit counter wraps (`CrankIds.WrapCanRepeatId`).
- CrankSafety.WorkIsBounded: speaks of one set of settings; a parameter change restarts the work.
- Ladder.LadderIsMonotone: does not order a last order moved by its override, which can fall back inside the ladder.
- Memory layout, packed structs and byte casts of accounts.
