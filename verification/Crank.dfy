/** The order-book crank: what one monitor step does to the pool's crank state, and what
    changing a parameter does to it. */
module Crank {
  import opened Checked
  import opened Decimals
  import opened Pnl
  import opened State
  import opened Planner
  import opened Placement

  datatype Phase =
    | Invalid
    | Idle
    | CancelAllOrders
    | PlanOrders
    | CancelOrder
    | PlaceOrders
    | PurgeOrders

  /** How far placing has come, and the pool the last completed round was placed for. */
  datatype Round = Round(
    cur: u64, validBuy: u64, validSell: u64, replaceBuy: Ids, replaceSell: Ids,
    placedX: u128, placedY: u128)

  /** What is set aside for the protocol, and what it was taken from. */
  datatype Owed = Owed(needPc: u64, needCoin: u64, totalPnlPc: u64, totalPnlCoin: u64)

  datatype CrankState = CrankState(
    phase: Phase, reset: bool, clientId: u64, owed: Owed, calcX: u128, calcY: u128,
    plan: Plan, round: Round)

  /** What a monitor step is given: its limits, the pool's totals less what is owed, the
      pool's live orders, its used open-order slots, and the funds seen rung by rung. */
  datatype Inputs = Inputs(
    status: Status, pc: u64, coin: u64, bids: seq<u64>, asks: seq<u64>, usedSlots: nat,
    planLimit: u16, placeLimit: u16, funds: seq<Funds>)
  {
    predicate NoOrders() {
      bids == [] && asks == []
    }
  }

  const ZERO_IDS: Ids := [0, 0, 0, 0, 0, 0, 0, 0, 0, 0]

  // ---- Idle ----

  function BookOwed(o: Owed, t: Taking): Result<Owed> {
    if t.takePc == 0 then Success(o)
    else
      var totalPc :- ToU64(o.totalPnlPc + t.grossPc);
      var totalCoin :- ToU64(o.totalPnlCoin + t.grossCoin);
      var needPc :- ToU64(o.needPc + t.takePc);
      var needCoin :- ToU64(o.needCoin + t.takeCoin);
      Success(Owed(needPc, needCoin, totalPc, totalCoin))
  }

  /** The book or the pool is not as the last round left it. */
  predicate NeedsPlan(c: CrankState, inp: Inputs, x: u128, y: u128) {
    || |inp.bids| < c.round.validBuy
    || |inp.asks| < c.round.validSell
    || inp.NoOrders()
    || x != c.round.placedX
    || y != c.round.placedY
  }

  function AfterIdle(s: Settings, c: CrankState, inp: Inputs, x: u128, y: u128, cur: nat): CrankState {
    var planned :=
      if NeedsPlan(c, inp, x, y) then c.(phase := PlanOrders, plan := c.plan.(cur := 0)) else c.(phase := Idle);
    if PriceInRange(s, cur) then planned
    else planned.(phase := if inp.NoOrders() then Idle else CancelAllOrders)
  }

  function TakeIdlePnl(s: Settings, c: CrankState, inp: Inputs, x: u128, y: u128): Result<CrankState> {
    var t :- CalcTakePnl(s.scale, s.fees.Pnl(), c.calcX, c.calcY, inp.pc, inp.coin, x, y);
    var owed :- BookOwed(c.owed, t);
    if t.deltaX != 0 && t.deltaY != 0 then
      var calcX :- Sub(x, t.deltaX);
      var calcY :- Sub(y, t.deltaY);
      Success(c.(owed := owed, calcX := calcX, calcY := calcY))
    else Success(c.(owed := owed))
  }

  function DoIdle(s: Settings, c: CrankState, inp: Inputs): Result<CrankState> {
    var (x, y) :- Survey(s, inp.pc, inp.coin);
    :- Need(x != 0 && y != 0, CheckedEmptyFunds);
    var scaled :- ToU128(x * s.scale.sysDecimalValue);
    var cur :- Div(scaled, y);
    var next := AfterIdle(s, c, inp, x, y, cur);
    var product :- ToU128(x * y);
    var recorded :- ToU128(c.calcX * c.calcY);
    if product < recorded then Success(next.(phase := CancelAllOrders))
    else TakeIdlePnl(s, next, inp, x, y)
  }

  // ---- Plan ----

  /** A finished plan opens a fresh placement round. */
  function OpenRound(r: Round): Round {
    r.(cur := 0, replaceBuy := ZERO_IDS, replaceSell := ZERO_IDS, placedX := 0, placedY := 0)
  }

  function DoPlan(s: Settings, c: CrankState, inp: Inputs): Result<CrankState> {
    var chunk :- PlanOrderbook(s, c.plan, inp.pc, inp.coin, inp.planLimit);
    Success(AfterPlan(c.(plan := chunk.plan), c.plan.cur == 0 && s.orderNum != 0, chunk.exit))
  }

  /** A fresh plan forgets how many orders the last round placed. */
  function AfterPlan(c: CrankState, fromStart: bool, exit: Exit): CrankState {
    var round := if fromStart then c.round.(validBuy := 0, validSell := 0) else c.round;
    match exit
    case Unfinished => c.(round := round)
    case Abandoned => c.(round := round, phase := Idle)
    case Finished => c.(round := OpenRound(round), phase := PlaceOrders)
  }

  // ---- Place ----

  function DeskOf(c: CrankState, inp: Inputs): Desk {
    Desk(c.round.cur, c.clientId,
         Side(c.round.validBuy, c.round.replaceBuy, Retain(inp.bids, c.round.replaceBuy)),
         Side(c.round.validSell, c.round.replaceSell, Retain(inp.asks, c.round.replaceSell)))
  }

  function Return(c: CrankState, d: Desk): CrankState {
    c.(clientId := d.clientId, round := c.round.(
      cur := d.cur, validBuy := d.buy.valid, validSell := d.sell.valid,
      replaceBuy := d.buy.replaced, replaceSell := d.sell.replaced))
  }

  function DoPlace(s: Settings, c: CrankState, inp: Inputs): Result<CrankState> {
    if inp.usedSlots > 100 then Success(c.(phase := CancelAllOrders))
    else
      var (x, y) :- Survey(s, inp.pc, inp.coin);
      :- Need(x != 0 && y != 0, CheckedEmptyFunds);
      if x != c.plan.targetX || y != c.plan.targetY then Success(c.(phase := Idle))
      else PlaceSome(s, c, inp, x, y)
  }

  function PlaceSome(s: Settings, c: CrankState, inp: Inputs, x: u128, y: u128): Result<CrankState> {
    var _ :- ToU64(c.round.cur + inp.placeLimit);
    var end := ChunkEnd(s, c.round.cur, inp.placeLimit);
    var p :- PlaceRange(s.scale, c.plan, c.round.cur, end, DeskOf(c, inp), inp.funds);
    Success(AfterPlace(s, Return(c, p.desk), p.funded, x, y))
  }

  function AfterPlace(s: Settings, c: CrankState, funded: bool, x: u128, y: u128): CrankState {
    if !funded then c.(phase := CancelAllOrders)
    else
      var saved := if c.round.cur == s.orderNum then c.(round := c.round.(placedX := x, placedY := y)) else c;
      if c.round.cur >= s.orderNum then saved.(phase := PurgeOrders) else saved
  }

  // ---- Purge and cancel ----

  function DoPurge(c: CrankState, inp: Inputs): CrankState {
    if |inp.bids| <= c.round.validBuy && |inp.asks| <= c.round.validSell then c.(phase := Idle) else c
  }

  function DoCancelAll(c: CrankState, inp: Inputs): CrankState {
    if inp.usedSlots > 100 && inp.NoOrders() then c
    else c.(reset := false, phase := Idle, plan := c.plan.(cur := 0), round := c.round.(cur := 0))
  }

  // ---- Dispatch ----

  function MonitorStep(s: Settings, c: CrankState, inp: Inputs): Result<CrankState> {
    if s.scale.minSize == 0 then Failure(MarketLotSizeIsTooLarge)
    else if c.reset then Success(DoCancelAll(c, inp))
    else if s.orderNum == 0 then Success(c)
    else
      :- Need(inp.status.OrderbookPermission(), InvalidStatus);
      match c.phase
      case Idle => DoIdle(s, c, inp)
      case CancelAllOrders => Success(DoCancelAll(c, inp))
      case PlanOrders => DoPlan(s, c, inp)
      case CancelOrder => Success(c.(phase := Idle))
      case PlaceOrders => DoPlace(s, c, inp)
      case PurgeOrders => Success(DoPurge(c, inp))
      case Invalid => Success(c)
  }

  // ---- Parameters ----

  datatype Change =
    | SetPhase(value: u64)
    | SetOrderNum(value: u64)
    | SetDepth(value: u64)
    | SetMinMultiplier(value: u64)
    | SetMaxMultiplier(value: u64)
    | SetVolMaxCutRatio(value: u64)
    | SetSeparate(value: u64)
    | SetFees(fees: Fees)
    | SetLastOrder(numerator: u64, denominator: u64)
    | InitOrderDepth
    | SetElsewhere

  function PhaseOf(value: u64): Option<Phase> {
    match value
    case 0 => Some(Invalid)
    case 1 => Some(Idle)
    case 2 => Some(CancelAllOrders)
    case 3 => Some(PlanOrders)
    case 4 => Some(CancelOrder)
    case 5 => Some(PlaceOrders)
    case 6 => Some(PurgeOrders)
    case _ => None
  }

  datatype Tuned = Tuned(settings: Settings, crank: CrankState)

  /** The setting written, before the crank is told to start over. */
  function Tune(s: Settings, c: CrankState, change: Change): Result<Tuned> {
    match change
    case SetPhase(v) =>
      :- Need(PhaseOf(v).Some?, InvalidParamsSet);
      Success(Tuned(s, c.(phase := PhaseOf(v).value)))
    case SetOrderNum(v) =>
      :- Need(v <= 10, InvalidInput);
      Success(Tuned(s.(orderNum := v), c))
    case SetDepth(v) =>
      :- Need(0 < v < 100, InvalidParamsSet);
      Success(Tuned(s.(depth := v), c))
    case SetMinMultiplier(v) =>
      :- Need(v < s.maxMultiplier, InvalidParamsSet);
      Success(Tuned(s.(minMultiplier := v), c))
    case SetMaxMultiplier(v) =>
      :- Need(v > s.maxMultiplier, InvalidParamsSet);
      Success(Tuned(s.(maxMultiplier := v), c))
    case SetVolMaxCutRatio(v) =>
      :- Need(v <= TEN_THOUSAND, InvalidParamsSet);
      Success(Tuned(s.(volMaxCutRatio := v), c))
    case SetSeparate(v) =>
      :- Need(v <= TEN_THOUSAND, InvalidParamsSet);
      Success(Tuned(s.(fees := s.fees.(minSeparateNumerator := v)), c))
    case SetFees(fees) =>
      :- Need(fees.Validate(), InvalidFee);
      Success(Tuned(s.(fees := fees), c))
    case SetLastOrder(n, d) => Success(Tuned(s.(lastNumerator := n, lastDenominator := d), c))
    case InitOrderDepth => Success(Tuned(s.(orderNum := 7, depth := 3), c))
    case SetElsewhere => Success(Tuned(s, c))
  }

  function SetParams(s: Settings, c: CrankState, change: Change): Result<Tuned> {
    var t :- Tune(s, c, change);
    Success(Tuned(t.settings, t.crank.(phase := CancelAllOrders, reset := true)))
  }

  /** Moving the pool to another market starts the crank and its counter anew. */
  function Relist(s: Settings, c: CrankState, scale: Scale): Tuned {
    Tuned(
      Settings(scale, DEFAULT_FEES, 7, 3, 1, 1_000_000_000, 500, s.lastNumerator, s.lastDenominator),
      c.(phase := Idle, reset := true, clientId := 0, owed := Owed(0, 0, 0, 0)))
  }
}
