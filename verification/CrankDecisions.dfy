/** What each monitor step decides and books: when profit is taken and for whom, when a ladder
    is planned, abandoned, placed or cancelled, and what a parameter change writes. */
module CrankDecisions {
  import opened Checked
  import opened Arith
  import opened Decimals
  import opened Pnl
  import opened Baseline
  import opened State
  import opened ProfitAmounts
  import opened Planner
  import opened Ladder
  import opened Placement
  import opened PlacedOrders
  import opened Crank
  import opened CrankSafety

  // ---- Idle: profit ----

  /** What the step sets aside of each token beyond what was owed before. */
  function SetAside(c: CrankState, r: CrankState): (int, int) {
    (r.owed.needPc - c.owed.needPc, r.owed.needCoin - c.owed.needCoin)
  }

  /** Each token is owed just its own share of the growth, and its profit total grows by its
      own growth; the baseline becomes the readings less the normalised shares.  Where either
      share is less than a native unit, nothing is written. */
  predicate BooksShares(c: CrankState, r: CrankState, x: nat, y: nat, p: Share, q: Share) {
    if p.take != 0 && q.take != 0 then
      && SetAside(c, r) == (p.take, q.take)
      && r.owed.totalPnlPc == c.owed.totalPnlPc + p.gross && r.owed.totalPnlCoin == c.owed.totalPnlCoin + q.gross
      && r.calcX + p.delta == x && r.calcY + q.delta == y
    else r.owed == c.owed && r.calcX == c.calcX && r.calcY == c.calcY
  }

  /** An idle step of a pool that covers its baseline takes the profit of the curve through
      that baseline, and books each side's share on its own side; what is set aside and what
      is left add up to the totals it was given. */
  lemma IdleBooks(s: Settings, c: CrankState, inp: Inputs, x: nat, y: nat)
    returns (t: Taking, x2: nat, y2: nat, p: Share, q: Share)
    requires s.fees.Pnl().Valid() && CoversUnits(s.scale)
    requires IsSurvey(s, inp.pc, inp.coin, x, y) && c.calcX * c.calcY <= x * y
    requires DoIdle(s, c, inp).Success?
    ensures var r := DoIdle(s, c, inp).value;
      && IsProfit(s.scale, s.fees.Pnl(), c.calcX, c.calcY, x, y, x2, y2, p, q)
      && Takes(t, inp.pc, inp.coin, p, q)
      && BooksShares(c, r, x, y, p, q)
      && SetAside(c, r).0 + t.pcLeft == inp.pc && SetAside(c, r).1 + t.coinLeft == inp.coin
  {
    hide AfterIdle, Survey, IsSurvey, CalcTakePnl, IsProfit, PriceInRange;
    SurveyIs(s, inp.pc, inp.coin, x, y);
    var next := AfterIdle(s, c, inp, x, y, (x * s.scale.sysDecimalValue) / y);
    AfterIdleFrame(s, c, inp, x, y, (x * s.scale.sysDecimalValue) / y);
    x2, y2, p, q := TakingIs(s.scale, s.fees.Pnl(), c.calcX, c.calcY, inp.pc, inp.coin, x, y);
    TakingConserves(s.scale, s.fees.Pnl(), c.calcX, c.calcY, inp.pc, inp.coin, x, y);
    t := CalcTakePnl(s.scale, s.fees.Pnl(), c.calcX, c.calcY, inp.pc, inp.coin, x, y).value;
  }

  // ---- Idle: where it leads ----

  /** The book or the pool is not as the last round left it. */
  predicate Unsettled(c: CrankState, inp: Inputs, x: nat, y: nat) {
    || |inp.bids| < c.round.validBuy
    || |inp.asks| < c.round.validSell
    || (|inp.bids| == 0 && |inp.asks| == 0)
    || (x, y) != (c.round.placedX, c.round.placedY)
  }

  predicate InBand(s: Settings, cur: nat) {
    s.scale.pcLotSize * s.minMultiplier <= cur <= s.scale.pcLotSize * s.maxMultiplier
  }

  /** Below its baseline the pool cancels; out of its price band it cancels what there is to
      cancel; otherwise it plans exactly when something changed. */
  lemma IdleDecides(s: Settings, c: CrankState, inp: Inputs, x: nat, y: nat, cur: nat)
    requires IsSurvey(s, inp.pc, inp.coin, x, y) && IsFloor(cur, x * s.scale.sysDecimalValue, y)
    requires DoIdle(s, c, inp).Success?
    ensures var r := DoIdle(s, c, inp).value;
      var bare := |inp.bids| == 0 && |inp.asks| == 0;
      && 0 < x && 0 < y
      && (r.phase == Phase.CancelAllOrders <==> x * y < c.calcX * c.calcY || (!InBand(s, cur) && !bare))
      && (r.phase == Phase.PlanOrders <==>
            c.calcX * c.calcY <= x * y && InBand(s, cur) && Unsettled(c, inp, x, y))
      && (r.phase != Phase.CancelAllOrders && r.phase != Phase.PlanOrders ==> r.phase == Idle)
      && r.plan == (if Unsettled(c, inp, x, y) then c.plan.(cur := 0) else c.plan)
      && r == c.(phase := r.phase, plan := r.plan, owed := r.owed, calcX := r.calcX, calcY := r.calcY)
      && (x * y < c.calcX * c.calcY ==> r.owed == c.owed && r.calcX == c.calcX && r.calcY == c.calcY)
  {
    hide TakeIdlePnl, Survey, IsSurvey, IsFloor;
    SurveyIs(s, inp.pc, inp.coin, x, y);
    FloorIs(x * s.scale.sysDecimalValue, y);
    FloorUnique(cur, (x * s.scale.sysDecimalValue) / y, x * s.scale.sysDecimalValue, y);
    var next := AfterIdle(s, c, inp, x, y, cur);
    if TakeIdlePnl(s, next, inp, x, y).Success? {
      TakeIdleFrame(s, next, inp, x, y);
    }
  }

  /** An idle step and the planning call after it judge the same price: a call that succeeds
      on the same totals plans. */
  lemma IdleThenPlans(s: Settings, c: CrankState, inp: Inputs, limit: u16)
    requires 0 < s.orderNum && DoIdle(s, c, inp).Success? && DoIdle(s, c, inp).value.phase.PlanOrders?
    requires PlanOrderbook(s, DoIdle(s, c, inp).value.plan, inp.pc, inp.coin, limit).Success?
    ensures !PlanOrderbook(s, DoIdle(s, c, inp).value.plan, inp.pc, inp.coin, limit).value.exit.Abandoned?
  {
    var (x, y) := Survey(s, inp.pc, inp.coin).value;
    var cur := (x * s.scale.sysDecimalValue) / y;
    SurveyIs(s, inp.pc, inp.coin, x, y);
    FloorIs(x * s.scale.sysDecimalValue, y);
    IdleDecides(s, c, inp, x, y, cur);
    CallIs(s, DoIdle(s, c, inp).value.plan, inp.pc, inp.coin, limit, x, y, cur);
    hide DoIdle, PlanOrderbook;
  }

  // ---- Planning ----

  /** A planning step that succeeds: the plan it leaves, and where it leads.  A fresh plan
      forgets what the last round placed; a finished one opens a round of its own. */
  lemma PlanDecides(s: Settings, c: CrankState, inp: Inputs, x: nat, y: nat, cur: nat)
    requires 0 < s.orderNum && c.plan.cur < s.orderNum
    requires IsSurvey(s, inp.pc, inp.coin, x, y) && IsFloor(cur, x * s.scale.sysDecimalValue, y)
    requires DoPlan(s, c, inp).Success?
    ensures PlanOrderbook(s, c.plan, inp.pc, inp.coin, inp.planLimit).Success?
    ensures var r := DoPlan(s, c, inp).value;
      var whole := Plannable(s, c.plan, x, y, cur) && s.orderNum <= c.plan.cur + inp.planLimit;
      var kept := if c.plan.cur == 0 then c.round.(validBuy := 0, validSell := 0) else c.round;
      && r.plan == PlanOrderbook(s, c.plan, inp.pc, inp.coin, inp.planLimit).value.plan
      && (r.plan.cur == s.orderNum <==> whole)
      && r.phase == (if whole then Phase.PlaceOrders else if Plannable(s, c.plan, x, y, cur) then c.phase else Idle)
      && (!whole ==> r.round == kept)
      && (whole ==>
            && r.round.cur == 0 && r.round.placedX == 0 && r.round.placedY == 0
            && r.round.validBuy == kept.validBuy && r.round.validSell == kept.validSell
            && forall i :: 0 <= i < 10 ==> r.round.replaceBuy[i] == 0 && r.round.replaceSell[i] == 0)
      && r == c.(phase := r.phase, plan := r.plan, round := r.round)
  {
    CallIs(s, c.plan, inp.pc, inp.coin, inp.planLimit, x, y, cur);
    hide PlanOrderbook, IsSurvey, IsFloor, Plannable;
  }

  // ---- Placing ----

  /** The desk a placing step starts from, and the one it leaves. */
  function DeskBefore(c: CrankState, inp: Inputs): Desk {
    Desk(c.round.cur, c.clientId,
         Side(c.round.validBuy, c.round.replaceBuy, Retain(inp.bids, c.round.replaceBuy)),
         Side(c.round.validSell, c.round.replaceSell, Retain(inp.asks, c.round.replaceSell)))
  }

  predicate Leaves(r: CrankState, d: Desk) {
    && r.clientId == d.clientId && r.round.cur == d.cur
    && r.round.validBuy == d.buy.valid && r.round.replaceBuy == d.buy.replaced
    && r.round.validSell == d.sell.valid && r.round.replaceSell == d.sell.replaced
  }

  /** Where a call that places up to its limit ends. */
  function PlaceEnd(s: Settings, c: CrankState, inp: Inputs): nat {
    if c.round.cur + inp.placeLimit < s.orderNum then c.round.cur + inp.placeLimit else s.orderNum
  }

  /** The next rungs are placed in order as far as `reached`.  Short of the end the funds of
      the rung there do not suffice, and everything is to be cancelled; a round placed to its
      end is recorded and purged. */
  ghost predicate PlacesUpTo(
    s: Settings, c: CrankState, r: CrankState, inp: Inputs, x: nat, y: nat, path: seq<Desk>, reached: nat)
  {
    var end := PlaceEnd(s, c, inp);
    && c.round.cur <= reached <= end
    && RungPath(s.scale, c.plan, c.round.cur, reached, path) && path[0] == DeskBefore(c, inp)
    && (reached == end <==> FundsRange(s.scale, c.plan, c.round.cur, end, inp.funds))
    && (if reached < end then
          && r.phase == Phase.CancelAllOrders
          && reached - c.round.cur < |inp.funds|
          && (exists d :: Leaves(r, d) && StopsShort(
                s.scale, c.plan.buys[reached], inp.funds[reached - c.round.cur], path[reached - c.round.cur], d))
        else
          && Leaves(r, path[end - c.round.cur])
          && r.phase == (if end == s.orderNum then Phase.PurgeOrders else Phase.PlaceOrders))
    && (r.round.placedX, r.round.placedY) ==
       (if reached == end == s.orderNum then (x, y) else (c.round.placedX, c.round.placedY))
    && r == c.(phase := r.phase, clientId := r.clientId, round := r.round)
  }

  /** A placing step that succeeds: with too many slots in use it cancels; a pool that is not
      the planned one sends it back to idle; otherwise it places. */
  lemma PlaceDecides(s: Settings, c: CrankState, inp: Inputs, x: nat, y: nat)
    returns (path: seq<Desk>, reached: nat)
    requires CrankInv(s, c) && !c.reset && c.phase.PlaceOrders?
    requires IsSurvey(s, inp.pc, inp.coin, x, y) && DoPlace(s, c, inp).Success?
    ensures var r := DoPlace(s, c, inp).value;
      if inp.usedSlots > 100 then r == c.(phase := Phase.CancelAllOrders)
      else if (x, y) != (c.plan.targetX, c.plan.targetY) then r == c.(phase := Idle)
      else PlacesUpTo(s, c, r, inp, x, y, path, reached)
  {
    path, reached := [DeskBefore(c, inp)], c.round.cur;
    hide PlaceSome, PlanInv, Survey, IsSurvey, PlacesUpTo;
    if inp.usedSlots <= 100 {
      SurveyIs(s, inp.pc, inp.coin, x, y);
      if (x, y) == (c.plan.targetX, c.plan.targetY) {
        path, reached := PlaceSomeDecides(s, c, inp, x, y);
      }
    }
  }

  lemma PlaceSomeDecides(s: Settings, c: CrankState, inp: Inputs, x: u128, y: u128)
    returns (path: seq<Desk>, reached: nat)
    requires CrankInv(s, c) && !c.reset && c.phase.PlaceOrders? && PlaceSome(s, c, inp, x, y).Success?
    ensures PlacesUpTo(s, c, PlaceSome(s, c, inp, x, y).value, inp, x, y, path, reached)
  {
    hide PlaceRange, Retain, PlanInv, PlacesRung, FundsRung, FundsRange, StopsShort, AfterPlace, RungPath;
    var end := ChunkEnd(s, c.round.cur, inp.placeLimit);
    path, reached := PlaceRangeIs(s.scale, c.plan, c.round.cur, end, DeskOf(c, inp), inp.funds);
    var p := PlaceRange(s.scale, c.plan, c.round.cur, end, DeskOf(c, inp), inp.funds).value;
    PathLength(s.scale, c.plan, c.round.cur, reached, path);
    RungsAdvance(s.scale, c.plan, c.round.cur, reached, path);
    AfterPlaceIs(s, Return(c, p.desk), p.funded, x, y);
    var r := PlaceSome(s, c, inp, x, y).value;
    assert Leaves(r, p.desk);
    assert end == PlaceEnd(s, c, inp);
  }

  lemma PathLength(s: Scale, plan: Plan, from: nat, end: nat, path: seq<Desk>)
    requires from <= end <= 50 && RungPath(s, plan, from, end, path)
    ensures |path| == end - from + 1
  {
  }

  lemma AfterPlaceIs(s: Settings, c: CrankState, funded: bool, x: u128, y: u128)
    requires (funded ==> c.round.cur <= s.orderNum) && c.phase.PlaceOrders?
    ensures var r, whole := AfterPlace(s, c, funded, x, y), funded && c.round.cur == s.orderNum;
      && r.phase == (if !funded then Phase.CancelAllOrders else if whole then Phase.PurgeOrders else Phase.PlaceOrders)
      && r.round == (if whole then c.round.(placedX := x, placedY := y) else c.round)
      && r == c.(phase := r.phase, round := r.round)
  {
  }

  /** Every placed rung advances the cursor by one. */
  lemma {:induction false} RungsAdvance(s: Scale, plan: Plan, from: nat, end: nat, path: seq<Desk>)
    requires from <= end <= 50 && RungPath(s, plan, from, end, path)
    ensures path[end - from].cur == path[0].cur + (end - from)
    decreases end - from
  {
    if from < end {
      RungAdvances(s, plan.buys[from], plan.sells[from], path[0], path[1]);
      hide PlacesRung;
      assert RungPath(s, plan, from + 1, end, path[1..]) by {
        forall i | from + 1 <= i < end
          ensures PlacesRung(s, plan.buys[i], plan.sells[i], path[1..][i - (from + 1)], path[1..][i - from])
        {
          assert path[1..][i - (from + 1)] == path[i - from];
        }
      }
      RungsAdvance(s, plan, from + 1, end, path[1..]);
    }
  }

  lemma RungAdvances(s: Scale, buy: Order, sell: Order, a: Desk, b: Desk)
    requires PlacesRung(s, buy, sell, a, b)
    ensures b.cur == a.cur + 1
  {
  }

  // ---- Purging, cancelling, dispatch ----

  /** Which steps a monitor call refuses, and what it does with a reset, a purge and a
      cancellation. */
  lemma MonitorIs(s: Settings, c: CrankState, inp: Inputs)
    ensures var r := MonitorStep(s, c, inp);
      var stuck := inp.usedSlots > 100 && |inp.bids| == 0 && |inp.asks| == 0;
      var cleared := c.(reset := false, phase := Idle, plan := c.plan.(cur := 0), round := c.round.(cur := 0));
      if s.scale.minSize == 0 then r == Failure(MarketLotSizeIsTooLarge)
      else if c.reset then r == Success(if stuck then c else cleared)
      else if s.orderNum == 0 then r == Success(c)
      else if inp.status != Initialized && inp.status != OrderBookOnly then r == Failure(InvalidStatus)
      else
        && (c.phase.Idle? ==> r == DoIdle(s, c, inp))
        && (c.phase.PlanOrders? ==> r == DoPlan(s, c, inp))
        && (c.phase.PlaceOrders? ==> r == DoPlace(s, c, inp))
        && (c.phase.CancelAllOrders? ==> r == Success(if stuck then c else cleared))
        && (c.phase.PurgeOrders? ==>
              r == Success(if c.round.validBuy < |inp.bids| || c.round.validSell < |inp.asks| then c
                           else c.(phase := Idle)))
        && (c.phase.CancelOrder? ==> r == Success(c.(phase := Idle)))
        && (c.phase.Invalid? ==> r == Success(c))
  {
    hide DoIdle, DoPlan, DoPlace;
  }

  // ---- Parameters ----

  /** Which values each parameter takes. */
  predicate Accepted(s: Settings, change: Change) {
    match change
    case SetPhase(v) => v <= 6
    case SetOrderNum(v) => v <= 10
    case SetDepth(v) => 1 <= v <= 99
    case SetMinMultiplier(v) => v < s.maxMultiplier
    case SetMaxMultiplier(v) => s.maxMultiplier < v
    case SetVolMaxCutRatio(v) => v <= 10000
    case SetSeparate(v) => v <= 10000
    case SetFees(f) =>
      && f.minSeparateNumerator < f.minSeparateDenominator && f.tradeFeeNumerator < f.tradeFeeDenominator
      && f.pnlNumerator < f.pnlDenominator && f.swapFeeNumerator < f.swapFeeDenominator
    case _ => true
  }

  /** A change is accepted exactly then, writes its own setting and no other, and tells the
      crank to cancel everything and start over. */
  lemma ParamsAre(s: Settings, c: CrankState, change: Change)
    ensures SetParams(s, c, change).Success? <==> Accepted(s, change)
    ensures SetParams(s, c, change).Success? ==>
      var t := SetParams(s, c, change).value;
      && t.crank == c.(phase := Phase.CancelAllOrders, reset := true)
      && t.settings.scale == s.scale
      && t.settings.orderNum ==
         (if change.SetOrderNum? then change.value else if change.InitOrderDepth? then 7 else s.orderNum)
      && t.settings.depth == (if change.SetDepth? then change.value else if change.InitOrderDepth? then 3 else s.depth)
      && t.settings.minMultiplier == (if change.SetMinMultiplier? then change.value else s.minMultiplier)
      && t.settings.maxMultiplier == (if change.SetMaxMultiplier? then change.value else s.maxMultiplier)
      && t.settings.volMaxCutRatio == (if change.SetVolMaxCutRatio? then change.value else s.volMaxCutRatio)
      && (t.settings.lastNumerator, t.settings.lastDenominator) ==
         (if change.SetLastOrder? then (change.numerator, change.denominator) else (s.lastNumerator, s.lastDenominator))
      && t.settings.fees ==
         (if change.SetFees? then change.fees
          else if change.SetSeparate? then s.fees.(minSeparateNumerator := change.value) else s.fees)
  {
  }

  /** Moving to another market starts the crank anew at the sizes creation gives it, draws ids
      from the start, and forgets what is owed and counted; what the last order is moved by
      stays. */
  lemma RelistIs(s: Settings, c: CrankState, scale: Scale)
    ensures var t := Relist(s, c, scale);
      && t.settings.scale == scale && t.settings.fees == Fees(5, 10000, 25, 10000, 12, 100, 25, 10000)
      && t.settings.orderNum == 7 && t.settings.depth == 3 && t.settings.volMaxCutRatio == 500
      && t.settings.minMultiplier == 1 && t.settings.maxMultiplier == 1_000_000_000
      && t.settings.lastNumerator == s.lastNumerator && t.settings.lastDenominator == s.lastDenominator
      && t.crank.phase == Idle && t.crank.reset && t.crank.clientId == 0
      && t.crank.owed.needPc == 0 && t.crank.owed.needCoin == 0
      && t.crank.owed.totalPnlPc == 0 && t.crank.owed.totalPnlCoin == 0
      && t.crank == c.(phase := Idle, reset := true, clientId := 0, owed := t.crank.owed)
  {
  }
}
