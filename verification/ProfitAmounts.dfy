/** What a taking of profit is, floor by floor, and what the instructions around it write:
    creation, the payout of profit and the move to another market. */
module ProfitAmounts {
  import opened Checked
  import opened Arith
  import opened Decimals
  import opened Pnl
  import opened Baseline
  import opened State
  import opened PoolLedger
  import opened Solvency
  import opened PnlErrors
  import opened Vaults

  // ---- The recorded curve, and each side's part ----

  /** The point of the recorded curve at the price of the readings: x2 is the root rounded
      down, y2 keeps the price, rounded down. */
  predicate IsCurvePoint(calcX: nat, calcY: nat, x1: nat, y1: nat, x2: nat, y2: nat) {
    && (x2 * x2) * y1 <= (calcX * calcY) * x1 < ((x2 + 1) * (x2 + 1)) * y1
    && IsFloor(y2, x2 * y1, x1)
  }

  /** One side: the share of the growth in normalised units, the growth in native units, and
      the share of that. */
  datatype Share = Share(delta: nat, gross: nat, take: nat)

  predicate IsShare(p: Share, growth: nat, unit: nat, sys: nat, f: PnlFee) {
    && IsFloor(p.delta, growth * f.numerator, f.denominator)
    && IsFloor(p.gross, growth * unit, sys)
    && IsFloor(p.take, p.gross * f.numerator, f.denominator)
  }

  predicate IsProfit(
    s: Scale, f: PnlFee, calcX: nat, calcY: nat, x1: nat, y1: nat, x2: nat, y2: nat, p: Share, q: Share)
  {
    && x2 <= x1 && y2 <= y1
    && IsCurvePoint(calcX, calcY, x1, y1, x2, y2)
    && IsShare(p, x1 - x2, Pow10(s.pcDecimals), s.sysDecimalValue, f)
    && IsShare(q, y1 - y2, Pow10(s.coinDecimals), s.sysDecimalValue, f)
  }

  /** Both shares leave the reserves, or neither when either is less than a native unit. */
  predicate Takes(t: Taking, pc: nat, coin: nat, p: Share, q: Share) {
    if p.take != 0 && q.take != 0 then
      && t.deltaX == p.delta && t.grossPc == p.gross && t.takePc == p.take && t.pcLeft + p.take == pc
      && t.deltaY == q.delta && t.grossCoin == q.gross && t.takeCoin == q.take && t.coinLeft + q.take == coin
    else t == Taking(0, 0, 0, 0, 0, 0, t.pcLeft, t.coinLeft) && t.pcLeft == pc && t.coinLeft == coin
  }

  /** Every number of a completed taking, by the floor that defines it. */
  lemma TakingIs(
    s: Scale, f: PnlFee, calcX: u128, calcY: u128, pc: u64, coin: u64, x1: u128, y1: u128)
    returns (x2: nat, y2: nat, p: Share, q: Share)
    requires CalcTakePnl(s, f, calcX, calcY, pc, coin, x1, y1).Success?
    ensures IsProfit(s, f, calcX, calcY, x1, y1, x2, y2, p, q)
    ensures Takes(CalcTakePnl(s, f, calcX, calcY, pc, coin, x1, y1).value, pc, coin, p, q)
  {
    hide CalcTakePnl, Cut, Profit, Pnl.Share, IsShare;
    TakingIsCut(s, f, calcX, calcY, pc, coin, x1, y1);
    x2, y2 := CurvePointIs(calcX, calcY, x1, y1);
    p, q := CutIs(s, f, pc, coin, x1 - x2, y1 - y2);
  }

  lemma CurvePointIs(calcX: u128, calcY: u128, x1: u128, y1: u128) returns (x2: nat, y2: nat)
    requires Profit(calcX, calcY, x1, y1).Success?
    ensures x2 <= x1 && y2 <= y1
    ensures IsCurvePoint(calcX, calcY, x1, y1, x2, y2)
    ensures Profit(calcX, calcY, x1, y1).value == (x1 - x2, y1 - y2)
  {
    hide Sqrt;
    var n := (calcX * calcY) * x1;
    x2, y2 := OnOldCurve(calcX, calcY, x1, y1).value.0, OnOldCurve(calcX, calcY, x1, y1).value.1;
    RootExceedsIff(n, y1, x2);
    if x2 > 0 {
      RootExceedsIff(n, y1, x2 - 1);
    }
    FloorIs(x2 * y1, x1);
  }

  lemma SideIs(diff: u128, decimals: u8, sys: u64, f: PnlFee)
    requires SideCut(diff, decimals, sys, f).Success?
    ensures var (delta, gross, take) := SideCut(diff, decimals, sys, f).value;
      IsShare(Share(delta, gross, take), diff, Pow10(decimals), sys, f)
  {
    var (delta, gross, take) := SideCut(diff, decimals, sys, f).value;
    FloorIs(diff * f.numerator, f.denominator);
    FloorIs(diff * Pow10(decimals), sys);
    FloorIs(gross * f.numerator, f.denominator);
    hide Pow10, IsFloor;
  }

  lemma CutIs(s: Scale, f: PnlFee, pc: u64, coin: u64, diffX: u128, diffY: u128) returns (p: Share, q: Share)
    requires Cut(s, f, pc, coin, diffX, diffY).Success?
    ensures IsShare(p, diffX, Pow10(s.pcDecimals), s.sysDecimalValue, f)
    ensures IsShare(q, diffY, Pow10(s.coinDecimals), s.sysDecimalValue, f)
    ensures Takes(Cut(s, f, pc, coin, diffX, diffY).value, pc, coin, p, q)
  {
    hide SideCut, IsShare;
    var a := SideCut(diffX, s.pcDecimals, s.sysDecimalValue, f);
    var b := SideCut(diffY, s.coinDecimals, s.sysDecimalValue, f);
    SideIs(diffX, s.pcDecimals, s.sysDecimalValue, f);
    SideIs(diffY, s.coinDecimals, s.sysDecimalValue, f);
    p, q := Share(a.value.0, a.value.1, a.value.2), Share(b.value.0, b.value.1, b.value.2);
  }

  // ---- Booking it ----

  predicate ReadReserves(l: Ledger, x1: nat, y1: nat)
    requires Solvent(l)
  {
    && IsReading(x1, PcReserve(l), Pow10(l.scale.pcDecimals), l.scale.sysDecimalValue)
    && IsReading(y1, CoinReserve(l), Pow10(l.scale.coinDecimals), l.scale.sysDecimalValue)
  }

  /** The amounts set aside and the profit totals grow, side by side, by what was taken of
      each reserve and the profit it was taken from. */
  predicate Booked(l: Ledger, m: Ledger, t: Taking) {
    m == l.(needPc := m.needPc, needCoin := m.needCoin, totalPnlPc := m.totalPnlPc, totalPnlCoin := m.totalPnlCoin)
    && m.needPc == l.needPc + t.takePc && m.needCoin == l.needCoin + t.takeCoin
    && m.totalPnlPc == l.totalPnlPc + t.grossPc && m.totalPnlCoin == l.totalPnlCoin + t.grossCoin
  }

  /** A taking on the ledger: the reserves are read, the profit on those readings is taken,
      and it is booked. */
  lemma LedgerTakingIs(l: Ledger) returns (k: Taken, x2: nat, y2: nat, p: Share, q: Share)
    requires Sound(l) && TakePnl(l, PcReserve(l), CoinReserve(l)).Success?
    ensures TakePnl(l, PcReserve(l), CoinReserve(l)) == Success(k)
    ensures ReadReserves(l, k.x1, k.y1)
    ensures IsProfit(l.scale, l.fees.Pnl(), l.calcX, l.calcY, k.x1, k.y1, x2, y2, p, q)
    ensures Takes(k.t, PcReserve(l), CoinReserve(l), p, q)
    ensures Booked(l, k.ledger, k.t)
  {
    hide CalcTakePnl, IsProfit, IsReading, Normalize, InitScale;
    k := TakePnl(l, PcReserve(l), CoinReserve(l)).value;
    x2, y2, p, q :=
      TakingIs(l.scale, l.fees.Pnl(), l.calcX, l.calcY, PcReserve(l), CoinReserve(l), k.x1, k.y1);
    ReadingIs(PcReserve(l), l.scale.pcDecimals, l.scale.sysDecimalValue);
    ReadingIs(CoinReserve(l), l.scale.coinDecimals, l.scale.sysDecimalValue);
  }

  // ---- Paying it out ----

  /** A payout leaves the vaults holding just what the taking left of the reserves, owes
      nothing, and records the readings less the normalised shares. */
  lemma WithdrawPnlIs(l: Ledger) returns (k: Taken)
    requires Sound(l) && WithdrawPnl(l).Success?
    ensures TakePnl(l, PcReserve(l), CoinReserve(l)) == Success(k)
    ensures var m := WithdrawPnl(l).value;
      && m.pcVault == k.t.pcLeft && m.coinVault == k.t.coinLeft
      && m.needPc == 0 && m.needCoin == 0
      && m.totalPnlPc == l.totalPnlPc + k.t.grossPc && m.totalPnlCoin == l.totalPnlCoin + k.t.grossCoin
      && m.calcX + k.t.deltaX == k.x1 && m.calcY + k.t.deltaY == k.y1
      && m == l.(pcVault := m.pcVault, coinVault := m.coinVault, needPc := 0, needCoin := 0,
                 totalPnlPc := m.totalPnlPc, totalPnlCoin := m.totalPnlCoin, calcX := m.calcX, calcY := m.calcY)
  {
    hide TakePnl, IsProfit, ReadReserves, Normalize, InitScale;
    TakingIsFair(l);
    var x2, y2, p, q;
    k, x2, y2, p, q := LedgerTakingIs(l);
  }

  // ---- Moving it ----

  /** A baseline read back into native units and then in another base, rounded down twice. */
  ghost predicate IsRebased(now: nat, before: nat, unit: nat, oldSys: nat, newSys: nat) {
    exists native: nat :: IsFloor(native, before * unit, oldSys) && IsReading(now, native, unit, newSys)
  }

  /** A move keeps the vaults, the LP, the decimals and the opening time, forgets what is
      owed and counted, returns to the default fees, waits to be opened, and reads the
      baseline in the new base unless both lots stay as they were. */
  lemma MigrateIs(l: Ledger, coinLot: u64, pcLot: u64)
    requires Migrate(l, coinLot, pcLot).Success?
    ensures var m := Migrate(l, coinLot, pcLot).value;
      && InitScale(l.scale.coinDecimals, l.scale.pcDecimals, coinLot, pcLot) == Success(m.scale)
      && m == l.(status := WaitingTrade, scale := m.scale, marketPcLot := pcLot, fees := DEFAULT_FEES,
                 needPc := 0, needCoin := 0, totalPnlPc := 0, totalPnlCoin := 0, swaps := NO_SWAPS,
                 calcX := m.calcX, calcY := m.calcY)
      && if coinLot == l.scale.coinLotSize && pcLot == l.marketPcLot
         then m.calcX == l.calcX && m.calcY == l.calcY
         else
           && IsRebased(m.calcX, l.calcX, Pow10(l.scale.pcDecimals), l.scale.sysDecimalValue, m.scale.sysDecimalValue)
           && IsRebased(m.calcY, l.calcY, Pow10(l.scale.coinDecimals), l.scale.sysDecimalValue, m.scale.sysDecimalValue)
  {
    var m := Migrate(l, coinLot, pcLot).value;
    InitScaleKeepsDecimals(l.scale.coinDecimals, l.scale.pcDecimals, coinLot, pcLot);
    hide InitScale;
    RebasedIs(l.calcX, l.scale.pcDecimals, l.scale.sysDecimalValue, m.scale.sysDecimalValue);
    RebasedIs(l.calcY, l.scale.coinDecimals, l.scale.sysDecimalValue, m.scale.sysDecimalValue);
    hide Restore, Normalize, IsRebased;
  }

  lemma RebasedIs(before: u128, decimals: u8, oldSys: u64, newSys: u64)
    ensures var native := Restore(before, decimals, oldSys);
      native.Success? && native.value < U64_LIMIT && Normalize(native.value, decimals, newSys).Success? ==>
        IsRebased(Normalize(native.value, decimals, newSys).value, before, Pow10(decimals), oldSys, newSys)
  {
    var native := Restore(before, decimals, oldSys);
    if native.Success? && native.value < U64_LIMIT && Normalize(native.value, decimals, newSys).Success? {
      FloorIs(before * Pow10(decimals), oldSys);
      ReadingIs(native.value, decimals, newSys);
    }
  }

  // ---- Creating it ----

  /** A created pool accounts for the floor root of its product in LP and locks ten to its
      coin decimals of it; it owes and has counted nothing, records its readings, and waits
      while its opening time is ahead. */
  lemma Initialize2Is(
    pcVault: u64, coinVault: u64, coinDecimals: u8, pcDecimals: u8,
    coinLot: u64, pcLot: u64, openTime: u64, now: u64)
    requires Initialize2(pcVault, coinVault, coinDecimals, pcDecimals, coinLot, pcLot, openTime, now).Success?
    ensures var m := Initialize2(pcVault, coinVault, coinDecimals, pcDecimals, coinLot, pcLot, openTime, now).value;
      && m.pcVault == pcVault > 0 && m.coinVault == coinVault > 0
      && IsSqrt(m.lpAmount, pcVault * coinVault)
      && m.lpSupply + Pow10(coinDecimals) == m.lpAmount
      && InitScale(coinDecimals, pcDecimals, coinLot, pcLot) == Success(m.scale)
      && m.marketPcLot == pcLot && m.openTime == openTime
      && (m.status == WaitingTrade <==> now < openTime) && (m.status == SwapOnly <==> openTime <= now)
      && m.needPc == 0 && m.needCoin == 0 && m.totalPnlPc == 0 && m.totalPnlCoin == 0
      && m.swaps == SwapTotals(0, 0, 0, 0, 0, 0)
      && m.fees == Fees(5, 10000, 25, 10000, 12, 100, 25, 10000)
      && IsReading(m.calcX, pcVault, Pow10(pcDecimals), m.scale.sysDecimalValue)
      && IsReading(m.calcY, coinVault, Pow10(coinDecimals), m.scale.sysDecimalValue)
  {
    hide InitScale, IsSqrt;
    var m := Initialize2(pcVault, coinVault, coinDecimals, pcDecimals, coinLot, pcLot, openTime, now).value;
    ReadingIs(pcVault, pcDecimals, m.scale.sysDecimalValue);
    ReadingIs(coinVault, coinDecimals, m.scale.sysDecimalValue);
    hide Normalize, IsReading, Pow10;
  }

  /** A pool can be created exactly on a market that gives a scale, with two nonempty vaults
      whose product is at least the square of the coin unit. */
  lemma Initialize2SucceedsIff(
    pcVault: u64, coinVault: u64, coinDecimals: u8, pcDecimals: u8,
    coinLot: u64, pcLot: u64, openTime: u64, now: u64)
    ensures Initialize2(pcVault, coinVault, coinDecimals, pcDecimals, coinLot, pcLot, openTime, now).Success? <==>
      && 0 < pcVault && 0 < coinVault
      && InitScale(coinDecimals, pcDecimals, coinLot, pcLot).Success?
      && Pow10(coinDecimals) * Pow10(coinDecimals) <= pcVault * coinVault
  {
    hide Sqrt, IsSqrt, Pow10, Normalize, Normalized;
    var product: nat := pcVault * coinVault;
    MulMono2(pcVault, coinVault, U64_LIMIT - 1, U64_LIMIT - 1);
    RootReaches(product, Pow10(coinDecimals));
    RootReaches(product, U64_LIMIT);
    var s := InitScale(coinDecimals, pcDecimals, coinLot, pcLot);
    if s.Success? {
      LotsAreSet(coinDecimals, pcDecimals, coinLot, pcLot);
      InitScaleCoversUnits(coinDecimals, pcDecimals, coinLot, pcLot);
      NormalizeFits(pcVault, pcDecimals, s.value.sysDecimalValue);
      NormalizeFits(coinVault, coinDecimals, s.value.sysDecimalValue);
    }
    hide InitScale;
  }

  lemma RootReaches(n: nat, r: nat)
    ensures r <= Sqrt(n) <==> r * r <= n
  {
    if r <= Sqrt(n) {
      MulMono2(r, r, Sqrt(n), Sqrt(n));
    } else {
      MulMono2(Sqrt(n) + 1, Sqrt(n) + 1, r, r);
    }
  }

  /** The reserves are what the vaults hold beyond what is owed, and are refused only to a
      vault that holds less than that. */
  lemma TotalsAre(l: Ledger, pc: u64, coin: u64)
    ensures Totals(l) == Success((pc, coin)) <==> pc + l.needPc == l.pcVault && coin + l.needCoin == l.coinVault
  {
  }

  // ---- What happens from outside ----

  /** Gifts, burns and settings write just what they say, and are refused exactly when they
      do not fit or are not valid. */
  lemma OutsideIs(l: Ledger, status: OffBook, fees: Fees, pc: u64, coin: u64, lp: u64)
    ensures Apply(l, Step.SetStatus(status)) ==
      if status == Status.Uninitialized then Failure(InvalidParamsSet) else Success(l.(status := status))
    ensures Apply(l, Step.SetFees(fees)) ==
      if fees.Validate() then Success(l.(fees := fees)) else Failure(InvalidFee)
    ensures Apply(l, Step.Donate(pc, coin)).Success?
      <==> l.pcVault + pc < U64_LIMIT && l.coinVault + coin < U64_LIMIT
    ensures Apply(l, Step.Donate(pc, coin)).Success? ==> var m := Apply(l, Step.Donate(pc, coin)).value;
      m.pcVault == l.pcVault + pc && m.coinVault == l.coinVault + coin
      && m == l.(pcVault := m.pcVault, coinVault := m.coinVault)
    ensures Apply(l, Step.BurnLp(lp)).Success? <==> lp <= l.lpSupply
    ensures Apply(l, Step.BurnLp(lp)).Success? ==> var m := Apply(l, Step.BurnLp(lp)).value;
      m.lpSupply + lp == l.lpSupply && m == l.(lpSupply := m.lpSupply)
  {
  }
}
