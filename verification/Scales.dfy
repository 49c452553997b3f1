/** Which markets keep a pool's reserves on or above its baseline: exactly those whose lots
    give a whole scale. */
module Scales {
  import opened Checked
  import opened Arith
  import opened Curve
  import opened Decimals
  import opened Pnl
  import opened State
  import opened PoolLedger
  import opened Solvency
  import opened Runs

  // ---- Whole markets suffice ----

  /** The pool is only moved to markets with whole scales. */
  predicate WholeMoves(coinDecimals: u8, pcDecimals: u8, steps: seq<Step>) {
    forall i :: 0 <= i < |steps| && steps[i].DoMigrate? ==>
      WholeMarket(coinDecimals, pcDecimals, steps[i].coinLot, steps[i].pcLot)
  }

  /** A pool created on a whole market and only moved to such markets reads both tokens
      through whole scales for ever. */
  lemma WholeMarketsKeepWholeScales(c: Creation, steps: seq<Step>)
    requires Create(c).Success? && WholeMarket(c.coinDecimals, c.pcDecimals, c.coinLot, c.pcLot)
    requires WholeMoves(c.coinDecimals, c.pcDecimals, steps)
    ensures IntegerRun(Create(c).value, steps)
  {
    InitScaleKeepsDecimals(c.coinDecimals, c.pcDecimals, c.coinLot, c.pcLot);
    hide Decimals.InitScale, Solvency.IntegerRun, WholeScale, WholeMoves, Normalize;
    WholeRun(Create(c).value, steps);
  }

  lemma {:induction false} WholeRun(l: Ledger, steps: seq<Step>)
    requires IntegerScales(l) && WholeMoves(l.scale.coinDecimals, l.scale.pcDecimals, steps)
    ensures IntegerRun(l, steps)
    decreases |steps|
  {
    hide Apply, WholeScale, WholeMarket;
    if steps != [] {
      WholeStep(l, steps[0]);
      WholeRun(Exec(l, steps[0]), steps[1..]);
    }
  }

  lemma WholeStep(l: Ledger, step: Step)
    requires IntegerScales(l)
    requires step.DoMigrate? ==>
      WholeMarket(l.scale.coinDecimals, l.scale.pcDecimals, step.coinLot, step.pcLot)
    ensures var m := Exec(l, step);
      && IntegerScales(m)
      && m.scale.coinDecimals == l.scale.coinDecimals && m.scale.pcDecimals == l.scale.pcDecimals
  {
    hide Pnl.CalcTakePnl, Curve.BaseInWithFee, Curve.BaseOutWithFee, PoolLedger.DepositAmounts,
      PoolLedger.ExchangeFloor, PoolLedger.BaselineUp, PoolLedger.BaselineDown, Decimals.InitScale, WholeScale;
    if step.DoMigrate? && Apply(l, step).Success? {
      InitScaleKeepsDecimals(l.scale.coinDecimals, l.scale.pcDecimals, step.coinLot, step.pcLot);
    }
  }

  /** A market that does not override the power-of-ten base is whole. */
  lemma PlainMarketIsWhole(coinDecimals: u8, pcDecimals: u8, coinLot: u64, pcLot: u64)
    requires 0 < pcLot && !Overridden(coinDecimals, pcDecimals, coinLot, pcLot)
    ensures WholeMarket(coinDecimals, pcDecimals, coinLot, pcLot)
  {
    if InitScale(coinDecimals, pcDecimals, coinLot, pcLot).Success? {
      InitScaleIsInteger(coinDecimals, pcDecimals, coinLot, pcLot);
      InitScaleKeepsDecimals(coinDecimals, pcDecimals, coinLot, pcLot);
    }
  }

  /** What a pool on whole markets is promised, whatever happens to it: reserves that cover
      the baseline, and profit that can be taken until integers overflow. */
  lemma WholeMarketsArePromised(c: Creation, steps: seq<Step>)
    requires Create(c).Success? && WholeMarket(c.coinDecimals, c.pcDecimals, c.coinLot, c.pcLot)
    requires WholeMoves(c.coinDecimals, c.pcDecimals, steps)
    ensures var m := Run(Create(c).value, steps);
      && Covered(m)
      && var r := TakePnl(m, PcReserve(m), CoinReserve(m));
      && (r.Failure? ==> r.error == Overflow)
      && WithdrawPnl(m) != Failure(CalcPnlError)
  {
    hide Create, WholeMoves, WholeMarket, Solvency.Run, Solvency.IntegerRun, WithdrawPnl, TakePnl;
    WholeMarketsKeepWholeScales(c, steps);
    var l := Create(c).value;
    assert Created(l);
    CreatedIsKept(l);
    RunKeepsInv(l, steps);
    TakePnlSafe(Run(l, steps));
    WithdrawPnlErrors(Run(l, steps));
  }

  // ---- Whole markets are needed ----

  /** Every pool on the market, moved only to whole markets, stays covered. */
  ghost predicate AlwaysCovered(coinDecimals: u8, pcDecimals: u8, coinLot: u64, pcLot: u64) {
    forall c: Creation, steps: seq<Step> ::
      OnMarket(c, coinDecimals, pcDecimals, coinLot, pcLot) && WholeMoves(coinDecimals, pcDecimals, steps)
      ==> Covered(Run(Create(c).value, steps))
  }

  predicate OnMarket(c: Creation, coinDecimals: u8, pcDecimals: u8, coinLot: u64, pcLot: u64) {
    && c.coinDecimals == coinDecimals && c.pcDecimals == pcDecimals
    && c.coinLot == coinLot && c.pcLot == pcLot
    && Create(c).Success?
  }

  /** Reserves stay on or above the baseline in every run of every pool on a market if
      and only if the market's lots give a whole scale. */
  lemma CoveredIffWholeMarket(coinDecimals: u8, pcDecimals: u8, coinLot: u64, pcLot: u64)
    ensures AlwaysCovered(coinDecimals, pcDecimals, coinLot, pcLot)
      <==> WholeMarket(coinDecimals, pcDecimals, coinLot, pcLot)
  {
    hide Covered, Create, WholeMoves, Solvency.Run;
    if WholeMarket(coinDecimals, pcDecimals, coinLot, pcLot) {
      forall c: Creation, steps: seq<Step>
        | OnMarket(c, coinDecimals, pcDecimals, coinLot, pcLot) && WholeMoves(coinDecimals, pcDecimals, steps)
        ensures Covered(Run(Create(c).value, steps))
      {
        WholeMarketsKeepWholeScales(c, steps);
        assert Created(Create(c).value);
        EveryRunCoversBaseline(Create(c).value, steps);
      }
    } else {
      var c, steps := FractionalMarketFails(coinDecimals, pcDecimals, coinLot, pcLot);
      assert !Covered(Run(Create(c).value, steps));
    }
  }

  /** The vaults of the failing pool: the fractional side holds a power of ten that its
      unit divides, the other five units more. */
  function FailingPool(coinDecimals: u8, pcDecimals: u8, coinLot: u64, pcLot: u64, u: u64, coinSide: bool): Creation
    requires u + 5 < U64_LIMIT
  {
    if coinSide then Creation(u + 5, u, coinDecimals, pcDecimals, coinLot, pcLot, 0, 0)
    else Creation(u, u + 5, coinDecimals, pcDecimals, coinLot, pcLot, 0, 0)
  }

  /** Stop everything but withdrawals, then redeem two LP. */
  const REDEEM_TWO: seq<Step> := [SetStatus(WithdrawOnly), DoWithdraw(2, None, None, 2)]

  lemma FractionalMarketFails(coinDecimals: u8, pcDecimals: u8, coinLot: u64, pcLot: u64)
    returns (c: Creation, steps: seq<Step>)
    requires !WholeMarket(coinDecimals, pcDecimals, coinLot, pcLot)
    ensures OnMarket(c, coinDecimals, pcDecimals, coinLot, pcLot)
    ensures WholeMoves(coinDecimals, pcDecimals, steps)
    ensures !Covered(Run(Create(c).value, steps))
  {
    var s := InitScale(coinDecimals, pcDecimals, coinLot, pcLot).value;
    InitScaleKeepsDecimals(coinDecimals, pcDecimals, coinLot, pcLot);
    InitScaleCoversUnits(coinDecimals, pcDecimals, coinLot, pcLot);
    var u := Pow10(MaxDecimals(coinDecimals, pcDecimals));
    PowerLeavesRoom(MaxDecimals(coinDecimals, pcDecimals));
    Pow10Mono(pcDecimals, MaxDecimals(coinDecimals, pcDecimals));
    Pow10Mono(coinDecimals, MaxDecimals(coinDecimals, pcDecimals));
    FractionalNeedsDecimals(coinDecimals, pcDecimals, s.sysDecimalValue);
    var coinSide := !IntegerScale(Pow10(coinDecimals), s.sysDecimalValue);
    hide Decimals.InitScale, Pow10, Covered;
    c := FailingPool(coinDecimals, pcDecimals, coinLot, pcLot, u, coinSide);
    steps := REDEEM_TWO;
    FailingCreation(c, s, u);
    FailingRun(Create(c).value, u);
    FailingCover(Create(c).value, u, coinSide);
  }

  lemma PowerLeavesRoom(n: nat)
    requires Pow10(n) < U64_LIMIT
    ensures Pow10(n) + 5 < U64_LIMIT
  {
    assert Pow10(10) == 10_000_000_000;
    Pow10Add(10, 9);
    Pow10Add(10, 10);
    assert Pow10(9) == 1_000_000_000;
    if n >= 20 {
      Pow10Mono(20, n);
    } else {
      Pow10Mono(n, 19);
    }
  }

  /** A fractional scale needs a token with decimals. */
  lemma FractionalNeedsDecimals(coinDecimals: u8, pcDecimals: u8, sys: u64)
    requires 0 < sys
    requires !IntegerScale(Pow10(coinDecimals), sys) || !IntegerScale(Pow10(pcDecimals), sys)
    ensures Pow10(MaxDecimals(coinDecimals, pcDecimals)) >= 10
  {
    var n := MaxDecimals(coinDecimals, pcDecimals);
    assert Pow10(0) == 1 && Pow10(1) == 10;
    assert sys % 1 == 0;
    if n > 0 {
      Pow10Mono(1, n);
    }
  }

  /** The failing pool as created: two LP over the power of ten, the baseline at the
      reserves. */
  predicate IsFresh(l: Ledger, u: nat) {
    && l.status == SwapOnly && l.needPc == 0 && l.needCoin == 0
    && l.lpAmount == u + 2 && 2 <= l.lpSupply <= u + 1
    && ((l.pcVault == u + 5 && l.coinVault == u) || (l.pcVault == u && l.coinVault == u + 5))
    && Normalize(l.pcVault, l.scale.pcDecimals, l.scale.sysDecimalValue) == Success(l.calcX)
    && Normalize(l.coinVault, l.scale.coinDecimals, l.scale.sysDecimalValue) == Success(l.calcY)
  }

  lemma FailingCreation(c: Creation, s: Scale, u: nat)
    requires InitScale(c.coinDecimals, c.pcDecimals, c.coinLot, c.pcLot) == Success(s)
    requires s.coinDecimals == c.coinDecimals && s.pcDecimals == c.pcDecimals
    requires 10 <= u && u + 5 < U64_LIMIT && Pow10(c.coinDecimals) <= u && Pow10(c.pcDecimals) <= u
    requires (c.pcVault == u + 5 && c.coinVault == u) || (c.pcVault == u && c.coinVault == u + 5)
    requires c.openTime == c.now
    ensures Create(c).Success? && IsFresh(Create(c).value, u) && Create(c).value.scale == s
  {
    LotsAreSet(c.coinDecimals, c.pcDecimals, c.coinLot, c.pcLot);
    RootIs(c.pcVault, c.coinVault, u);
    NormalizeFits(c.pcVault, c.pcDecimals, s.sysDecimalValue);
    NormalizeFits(c.coinVault, c.coinDecimals, s.sysDecimalValue);
    hide Decimals.InitScale, Pow10, Normalize, Sqrt;
  }

  lemma RootIs(a: u64, b: u64, u: nat)
    requires 10 <= u && ((a == u + 5 && b == u) || (a == u && b == u + 5))
    ensures a * b < U128_LIMIT && Sqrt(a * b) == u + 2
  {
    ProductFits(a, b);
    BetweenSquares(u);
    SwapOrder(u, u + 5);
    SqrtUnique(u + 2, a * b);
    hide Sqrt;
  }

  lemma SwapOrder(a: nat, b: nat)
    ensures a * b == b * a
  {
  }

  lemma BetweenSquares(u: nat)
    requires 10 <= u
    ensures IsSqrt(u + 2, u * (u + 5))
  {
    Distribute(u, 2, u + 2);
    Distribute(u, 3, u + 3);
    assert u * (u + 2) == u * u + 2 * u;
    assert u * (u + 3) == u * u + 3 * u;
    assert u * (u + 5) == u * u + 5 * u;
  }

  /** What two of u + 2 LP are paid on a side. */
  function TwoPay(v: u64, u: nat): u64 {
    if v == u then 1 else 2
  }

  lemma TwoPayIs(v: u64, u: nat)
    requires 10 <= u && u + 5 < U64_LIMIT && (v == u || v == u + 5)
    ensures ExchangeFloor(v, 2, u + 2) == Success(TwoPay(v, u))
  {
    DivAtLeast(v * 2, u + 2, TwoPay(v, u));
    DivBelow(v * 2, u + 2, TwoPay(v, u) + 1);
  }

  /** After the two steps each side has paid, and its baseline fell by the reading of
      what it paid. */
  lemma FailingRun(l: Ledger, u: nat)
    requires IsFresh(l, u) && 10 <= u && u + 5 < U64_LIMIT
    requires Pow10(l.scale.coinDecimals) <= u && Pow10(l.scale.pcDecimals) <= u
    ensures var m := Run(l, REDEEM_TWO);
      && m.scale == l.scale && m.needPc == 0 && m.needCoin == 0
      && m.pcVault == l.pcVault - TwoPay(l.pcVault, u) && m.coinVault == l.coinVault - TwoPay(l.coinVault, u)
      && m.calcX == l.calcX
           - Normalized(TwoPay(l.pcVault, u), Pow10(l.scale.pcDecimals), l.scale.sysDecimalValue)
      && m.calcY == l.calcY
           - Normalized(TwoPay(l.coinVault, u), Pow10(l.scale.coinDecimals), l.scale.sysDecimalValue)
  {
    hide Pow10, Normalize, Normalized, ExchangeFloor;
    var stopped := Exec(l, SetStatus(WithdrawOnly));
    assert stopped == l.(status := WithdrawOnly);
    var redeem := DoWithdraw(2, None, None, 2);
    RunOfTwo(l, SetStatus(WithdrawOnly), redeem);
    FailingRedemption(stopped, u);
  }

  lemma RunOfTwo(l: Ledger, first: Step, second: Step)
    ensures Run(l, [first, second]) == Exec(Exec(l, first), second)
  {
    hide Exec;
    assert [first, second][1..] == [second];
    assert Run(Exec(l, first), [second]) == Run(Exec(Exec(l, first), second), []);
  }

  lemma FailingRedemption(l: Ledger, u: nat)
    requires IsFresh(l.(status := SwapOnly), u) && l.status == WithdrawOnly
    requires 10 <= u && u + 5 < U64_LIMIT && Pow10(l.scale.coinDecimals) <= u && Pow10(l.scale.pcDecimals) <= u
    ensures var pcOut, coinOut := TwoPay(l.pcVault, u), TwoPay(l.coinVault, u);
      var r := Withdraw(l, 2, None, None, 2);
      && r.Success?
      && r.value.scale == l.scale && r.value.needPc == 0 && r.value.needCoin == 0
      && r.value.pcVault == l.pcVault - pcOut && r.value.coinVault == l.coinVault - coinOut
      && r.value.calcX == l.calcX - Normalized(pcOut, Pow10(l.scale.pcDecimals), l.scale.sysDecimalValue)
      && r.value.calcY == l.calcY - Normalized(coinOut, Pow10(l.scale.coinDecimals), l.scale.sysDecimalValue)
  {
    TwoPayIs(l.pcVault, u);
    TwoPayIs(l.coinVault, u);
    NormalizeFits(l.pcVault, l.scale.pcDecimals, l.scale.sysDecimalValue);
    NormalizeFits(l.coinVault, l.scale.coinDecimals, l.scale.sysDecimalValue);
    NormalizeFits(TwoPay(l.pcVault, u), l.scale.pcDecimals, l.scale.sysDecimalValue);
    NormalizeFits(TwoPay(l.coinVault, u), l.scale.coinDecimals, l.scale.sysDecimalValue);
    NormalizedMono(TwoPay(l.pcVault, u), l.pcVault, Pow10(l.scale.pcDecimals), l.scale.sysDecimalValue);
    NormalizedMono(TwoPay(l.coinVault, u), l.coinVault, Pow10(l.scale.coinDecimals), l.scale.sysDecimalValue);
    hide Pow10, Normalize, Normalized, ExchangeFloor;
  }

  /** Taking one unit from an amount its unit divides costs the reading one more than the
      reading of one, when the scale is fractional. */
  lemma OneUnitCostsMore(v: nat, unit: nat, sys: nat)
    requires 0 < unit && 0 < v && v % unit == 0 && sys % unit != 0
    ensures Normalized(v, unit, sys) - Normalized(1, unit, sys) == Normalized(v - 1, unit, sys) + 1
  {
    var k, q := v / unit, sys / unit;
    DivBounds(v, unit);
    DivBounds(sys, unit);
    assert v * sys == (k * sys) * unit;
    DivExact(k * sys, unit);
    assert (v - 1) * sys == v * sys - sys;
    assert 1 * sys == sys;
    var left := k * sys - q - 1;
    Distribute(k * sys, q + 1, unit);
    Distribute(q, 1, unit);
    OneLessQuotient(v - 1, sys, unit, left);
  }

  lemma OneLessQuotient(v: nat, sys: nat, unit: nat, q: int)
    requires 0 < unit && q * unit <= v * sys < q * unit + unit
    ensures Normalized(v, unit, sys) == q
  {
    if q < 0 {
      MulMono(q + 1, 0, unit);
    }
    DivAtLeast(v * sys, unit, q);
    DivBelow(v * sys, unit, q + 1);
  }

  lemma FailingCover(l: Ledger, u: nat, coinSide: bool)
    requires IsFresh(l, u) && 10 <= u && u + 5 < U64_LIMIT
    requires CoversUnits(l.scale)
    requires Pow10(l.scale.coinDecimals) <= u && u % Pow10(l.scale.coinDecimals) == 0
    requires Pow10(l.scale.pcDecimals) <= u && u % Pow10(l.scale.pcDecimals) == 0
    requires if coinSide
      then l.coinVault == u && l.scale.sysDecimalValue % Pow10(l.scale.coinDecimals) != 0
      else l.pcVault == u && l.scale.sysDecimalValue % Pow10(l.scale.pcDecimals) != 0
    ensures !Covered(Run(l, REDEEM_TWO))
  {
    hide Pow10, Normalize, Normalized, Solvency.Run, TwoPay;
    FailingRun(l, u);
    var m := Run(l, REDEEM_TWO);
    SideFalls(l.pcVault, u, l.scale.pcDecimals, l.scale.sysDecimalValue);
    SideFalls(l.coinVault, u, l.scale.coinDecimals, l.scale.sysDecimalValue);
    NormalizeFits(l.pcVault, l.scale.pcDecimals, l.scale.sysDecimalValue);
    NormalizeFits(l.coinVault, l.scale.coinDecimals, l.scale.sysDecimalValue);
    if Solvent(m) {
      ProductFalls(ReserveX(m), ReserveY(m), m.calcX, m.calcY);
    }
  }

  /** What one side's baseline keeps after the payment covers its reserve, and exceeds it
      where the scale is fractional and the unit divides the vault. */
  lemma SideFalls(v: u64, u: nat, decimals: u8, sys: u64)
    requires 10 <= u && (v == u || v == u + 5)
    requires u % Pow10(decimals) == 0 && Pow10(decimals) <= sys
    ensures var unit, out := Pow10(decimals), TwoPay(v, u);
      var left := Normalized(v - out, unit, sys);
      && 0 < left <= Normalized(v, unit, sys) - Normalized(out, unit, sys)
      && (v == u && sys % unit != 0 ==> left < Normalized(v, unit, sys) - Normalized(out, unit, sys))
  {
    var unit, out := Pow10(decimals), TwoPay(v, u);
    NormalizedSum(v - out, out, unit, sys);
    IsSeen(v - out, unit, sys);
    if v == u && sys % unit != 0 {
      OneUnitCostsMore(u, unit, sys);
    }
    hide Pow10, Normalized;
  }

  lemma ProductFalls(x: nat, y: nat, cx: nat, cy: nat)
    requires 0 < x <= cx && 0 < y <= cy && (x < cx || y < cy)
    ensures x * y < cx * cy
  {
    if x < cx {
      MulMono2(x + 1, y, cx, cy);
      Distribute(x, 1, y);
    } else {
      MulMono2(x, y + 1, cx, cy);
      Distribute(y, 1, x);
    }
  }
}
