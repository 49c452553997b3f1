/** What every run of the crank keeps, over any interleaving of monitor steps, parameter
    changes, market moves, trading on the exchange, and deposits and withdrawals. */
module CrankSafety {
  import opened Checked
  import opened Decimals
  import opened Pnl
  import opened Baseline
  import opened Planner
  import opened Ladder
  import opened LadderCases
  import opened Placement
  import opened Crank

  /** The crank and the client ids of its live orders, side by side. */
  datatype World = World(settings: Settings, crank: CrankState, bids: seq<u64>, asks: seq<u64>)

  datatype Step =
    | Monitor(inp: Inputs)
    | Adjust(change: Change)
    | Move(scale: Scale)
    | Trade(bids: seq<u64>, asks: seq<u64>)
    | Settle(owed: Owed, calcX: u128, calcY: u128)

  /** The book after a side has placed orders: a new id joins, a replaced one stays. */
  function Onto(live: seq<u64>, placed: seq<u64>): (book: seq<u64>)
    ensures forall id :: id in book <==> id in live || id in placed
    decreases |placed|
  {
    if placed == [] then live
    else if placed[0] in live then Onto(live, placed[1..])
    else Onto(live + [placed[0]], placed[1..])
  }

  function NewlyPlaced(ids: Ids, before: u64, after: u64): seq<u64> {
    if before <= after <= 10 then ids[before..after] else []
  }

  function Seen(w: World, inp: Inputs): Inputs {
    inp.(bids := w.bids, asks := w.asks)
  }

  function AfterMonitor(w: World, c: CrankState): World {
    if w.crank.phase.PlaceOrders? && !w.crank.reset then
      World(w.settings, c,
            Onto(w.bids, NewlyPlaced(c.round.replaceBuy, w.crank.round.validBuy, c.round.validBuy)),
            Onto(w.asks, NewlyPlaced(c.round.replaceSell, w.crank.round.validSell, c.round.validSell)))
    else w.(crank := c)
  }

  /** Fills and cancellations: some of the live orders remain, in any order. */
  predicate Remains(after: seq<u64>, before: seq<u64>) {
    Distinct(after) && forall i :: 0 <= i < |after| ==> after[i] in before
  }

  function Apply(w: World, step: Step): Result<World> {
    hide MonitorStep, SetParams;
    match step
    case Monitor(inp) =>
      var c :- MonitorStep(w.settings, w.crank, Seen(w, inp));
      Success(AfterMonitor(w, c))
    case Adjust(change) =>
      var t :- SetParams(w.settings, w.crank, change);
      Success(w.(settings := t.settings, crank := t.crank))
    case Move(scale) =>
      var t := Relist(w.settings, w.crank, scale);
      Success(World(t.settings, t.crank, [], []))
    case Trade(bids, asks) =>
      if Remains(bids, w.bids) && Remains(asks, w.asks) then Success(w.(bids := bids, asks := asks))
      else Failure(DexRejected)
    case Settle(owed, calcX, calcY) => Success(w.(crank := Rewritten(w.crank, owed, calcX, calcY)))
  }

  /** What a deposit, a withdrawal or a payout of profit writes of the crank's state. */
  function Rewritten(c: CrankState, owed: Owed, calcX: u128, calcY: u128): CrankState {
    c.(owed := owed, calcX := calcX, calcY := calcY)
  }

  /** A failed step leaves no trace. */
  function Exec(w: World, step: Step): World {
    var r := Apply(w, step);
    if r.Success? then r.value else w
  }

  function Run(w: World, steps: seq<Step>): World
    decreases |steps|
  {
    if steps == [] then w else Run(Exec(w, steps[0]), steps[1..])
  }

  // ---- The invariant ----

  /** Both bounds on the settings hold at creation and are kept by every writer. */
  predicate InRange(s: Settings) {
    DepthInRange(s) && CutInRange(s)
  }

  predicate PlanningWell(s: Settings, c: CrankState) {
    c.plan.cur < s.orderNum && (c.plan.cur > 0 ==> c.round.validBuy == 0 && c.round.validSell == 0)
  }

  predicate PlacingWell(s: Settings, c: CrankState) {
    && c.plan.cur == s.orderNum > 0
    && c.round.validBuy <= c.round.cur <= s.orderNum
    && c.round.validSell <= c.round.cur
  }

  /** Once a reset has been carried out, cursors and arrays fit the settings. */
  ghost predicate Settled(s: Settings, c: CrankState) {
    && PlanInv(s, c.plan)
    && (c.phase.PlanOrders? ==> PlanningWell(s, c))
    && (c.phase.PlaceOrders? ==> PlacingWell(s, c))
    && (c.phase.PurgeOrders? ==> PlacingWell(s, c) && c.round.cur == s.orderNum)
  }

  ghost predicate CrankInv(s: Settings, c: CrankState) {
    && InRange(s)
    && !c.phase.Invalid? && !c.phase.CancelOrder?
    && (!c.reset ==> Settled(s, c))
  }

  // ---- Phase by phase ----

  lemma IdleKeeps(s: Settings, c: CrankState, inp: Inputs)
    requires CrankInv(s, c) && !c.reset && s.orderNum > 0 && DoIdle(s, c, inp).Success?
    ensures var r := DoIdle(s, c, inp).value;
      && CrankInv(s, r) && r.round == c.round && r.clientId == c.clientId && !r.reset
      && (r.phase.PlanOrders? || r.phase.Idle? || r.phase.CancelAllOrders?)
      && (r.phase.PlanOrders? ==> r.plan.cur == 0)
  {
    hide AfterIdle, TakeIdlePnl, PlanInv, Survey, PlacingWell;
    var (x, y) := Survey(s, inp.pc, inp.coin).value;
    var cur := (x * s.scale.sysDecimalValue) / y;
    AfterIdleKeeps(s, c, inp, x, y, cur);
    var next := AfterIdle(s, c, inp, x, y, cur);
    if TakeIdlePnl(s, next, inp, x, y).Success? {
      TakeIdleFrame(s, next, inp, x, y);
    }
  }

  /** Taking profit while idle writes the profit statistics and the baseline only. */
  lemma TakeIdleFrame(s: Settings, c: CrankState, inp: Inputs, x: u128, y: u128)
    requires TakeIdlePnl(s, c, inp, x, y).Success?
    ensures var r := TakeIdlePnl(s, c, inp, x, y).value;
      r == c.(owed := r.owed, calcX := r.calcX, calcY := r.calcY)
  {
    hide CalcTakePnl, BookOwed;
  }

  lemma AfterIdleKeeps(s: Settings, c: CrankState, inp: Inputs, x: u128, y: u128, cur: nat)
    requires CrankInv(s, c) && !c.reset && s.orderNum > 0
    ensures var r := AfterIdle(s, c, inp, x, y, cur);
      && CrankInv(s, r) && r.round == c.round && r.clientId == c.clientId && !r.reset
      && (r.phase.PlanOrders? || r.phase.Idle? || r.phase.CancelAllOrders?)
      && (r.phase.PlanOrders? ==> r.plan.cur == 0)
      && PlanInv(s, r.plan)
      && r.calcX == c.calcX && r.calcY == c.calcY && r.owed == c.owed
  {
    hide NeedsPlan, PriceInRange, PassFrom, PlacingWell;
  }

  lemma PlanKeeps(s: Settings, c: CrankState, inp: Inputs)
    requires CrankInv(s, c) && !c.reset && s.orderNum > 0 && c.phase.PlanOrders?
    requires DoPlan(s, c, inp).Success?
    ensures var r := DoPlan(s, c, inp).value;
      && CrankInv(s, r) && r.clientId == c.clientId && !r.reset && !r.phase.PurgeOrders?
      && (r.phase.PlanOrders? ==> r.plan.cur == c.plan.cur + inp.planLimit)
      && (r.phase.PlaceOrders? ==> r.round.cur == 0)
  {
    CallKeepsPlan(s, c.plan, inp.pc, inp.coin, inp.planLimit);
    hide PlanOrderbook, PlanInv;
  }

  /** What one call adds to a round. */
  predicate RoundGrows(c: CrankState, r: CrankState, inp: Inputs) {
    && r.plan == c.plan && r.reset == c.reset
    && r.round.validBuy <= 10 && r.round.validSell <= 10
    && !r.phase.PlanOrders?
    && (r.phase.PlaceOrders? ==> inp.placeLimit > 0 ==> c.round.cur < r.round.cur)
  }

  lemma PlaceKeeps(s: Settings, c: CrankState, inp: Inputs)
    requires CrankInv(s, c) && !c.reset && c.phase.PlaceOrders? && DoPlace(s, c, inp).Success?
    ensures var r := DoPlace(s, c, inp).value; CrankInv(s, r) && RoundGrows(c, r, inp)
  {
    hide PlaceSome, PlanInv, Survey;
    if Survey(s, inp.pc, inp.coin).Success? {
      var (x, y) := Survey(s, inp.pc, inp.coin).value;
      if PlaceSome(s, c, inp, x, y).Success? {
        PlaceSomeKeeps(s, c, inp, x, y);
      }
    }
  }

  lemma PlaceSomeKeeps(s: Settings, c: CrankState, inp: Inputs, x: u128, y: u128)
    requires CrankInv(s, c) && !c.reset && c.phase.PlaceOrders? && PlaceSome(s, c, inp, x, y).Success?
    ensures var r := PlaceSome(s, c, inp, x, y).value; CrankInv(s, r) && RoundGrows(c, r, inp)
  {
    var end := ChunkEnd(s, c.round.cur, inp.placeLimit);
    PlaceRangeStaysInSlots(s.scale, c.plan, c.round.cur, end, DeskOf(c, inp), inp.funds);
    hide PlaceRange, Retain, PlanInv, Survey;
  }

  // ---- Every step, every run ----

  lemma MonitorKeeps(s: Settings, c: CrankState, inp: Inputs)
    requires CrankInv(s, c) && MonitorStep(s, c, inp).Success?
    ensures CrankInv(s, MonitorStep(s, c, inp).value)
  {
    if !c.reset && s.orderNum > 0 && inp.status.OrderbookPermission() {
      match c.phase
      case Idle => IdleKeeps(s, c, inp);
      case PlanOrders => PlanKeeps(s, c, inp);
      case PlaceOrders => PlaceKeeps(s, c, inp);
      case CancelAllOrders =>
      case PurgeOrders =>
    }
    hide DoIdle, DoPlan, DoPlace, PassFrom;
  }

  lemma AdjustKeeps(s: Settings, c: CrankState, change: Change)
    requires InRange(s) && SetParams(s, c, change).Success?
    ensures var t := SetParams(s, c, change).value;
      && CrankInv(t.settings, t.crank)
      && t.crank.clientId == c.clientId
      && t.crank.reset && t.crank.phase.CancelAllOrders?
  {
  }

  lemma StepKeepsInv(w: World, step: Step)
    requires CrankInv(w.settings, w.crank)
    ensures CrankInv(Exec(w, step).settings, Exec(w, step).crank)
  {
    if Apply(w, step).Success? {
      match step
      case Monitor(inp) => MonitorKeeps(w.settings, w.crank, Seen(w, inp));
      case Adjust(change) => AdjustKeeps(w.settings, w.crank, change);
      case Move(scale) =>
      case Trade(bids, asks) =>
      case Settle(owed, calcX, calcY) =>
    }
    hide MonitorStep, SetParams, Remains, PlanInv;
  }

  lemma {:induction false} RunKeepsInv(w: World, steps: seq<Step>)
    requires CrankInv(w.settings, w.crank)
    ensures CrankInv(Run(w, steps).settings, Run(w, steps).crank)
    decreases |steps|
  {
    hide CrankInv, Apply, Exec;
    if steps != [] {
      StepKeepsInv(w, steps[0]);
      RunKeepsInv(Exec(w, steps[0]), steps[1..]);
    }
  }

  /** A pool as created: told to reset, its book empty, no id drawn. */
  predicate Created(w: World) {
    && w.settings.depth == 3 && w.settings.volMaxCutRatio == 500
    && w.crank.phase.Idle? && w.crank.reset
    && w.crank.clientId == 0
    && w.bids == [] && w.asks == []
  }

  lemma CreatedIsKept(w: World)
    requires Created(w)
    ensures CrankInv(w.settings, w.crank)
  {
  }

  /** Cursor and array safety on every reachable state: the unused phases are never
      entered, and once no reset is pending, planning and placing stay inside the ten id
      slots and the fifty order slots, and a placement round works from a complete plan
      that one pass over one pool would have made.  The one index a plan can still abort
      on is the look two places back at its last order, for which `CallUnderflowsIff`
      gives the condition. */
  lemma EveryRunIsSafe(w: World, steps: seq<Step>)
    requires Created(w)
    ensures var r := Run(w, steps);
      && InRange(r.settings)
      && !r.crank.phase.Invalid? && !r.crank.phase.CancelOrder?
      && (!r.crank.reset ==>
        && PlanInv(r.settings, r.crank.plan)
        && (r.crank.phase.PlanOrders? ==> r.crank.plan.cur < r.settings.orderNum)
        && (r.crank.phase.PlaceOrders? || r.crank.phase.PurgeOrders? ==>
          && r.crank.plan.cur == r.settings.orderNum
          && r.crank.round.validBuy <= r.crank.round.cur <= r.settings.orderNum
          && r.crank.round.validSell <= r.crank.round.cur))
  {
    CreatedIsKept(w);
    RunKeepsInv(w, steps);
    hide Run, PlanInv, InRange;
  }

  /** Every ladder that is being placed, or has just been, in any run is sound. */
  lemma EveryLadderIsSound(w: World, steps: seq<Step>)
    requires Created(w)
    ensures var r := Run(w, steps);
      !r.crank.reset && (r.crank.phase.PlaceOrders? || r.crank.phase.PurgeOrders?) ==>
        SoundLadder(r.settings, r.crank.plan)
  {
    EveryRunIsSafe(w, steps);
    var r := Run(w, steps);
    hide Run, PlanInv, SoundLadder;
    if !r.crank.reset && (r.crank.phase.PlaceOrders? || r.crank.phase.PurgeOrders?) {
      RoundNeedsOrders(w, steps);
      ReachablePlan(r.settings, r.crank.plan);
    }
  }

  lemma RoundNeedsOrders(w: World, steps: seq<Step>)
    requires Created(w)
    ensures var r := Run(w, steps);
      !r.crank.reset && (r.crank.phase.PlaceOrders? || r.crank.phase.PurgeOrders?) ==> r.settings.orderNum > 0
  {
    CreatedIsKept(w);
    RunKeepsInv(w, steps);
    hide Run, PlanInv, InRange;
  }

  /** Whatever the exchange holds, placing never runs out of id slots. */
  lemma PlaceNeverRunsOutOfSlots(s: Settings, c: CrankState, inp: Inputs)
    requires CrankInv(s, c) && c.phase.PlaceOrders? && !c.reset
    ensures var r := DoPlace(s, c, inp); r.Failure? ==> r.error != IndexOutOfBounds
  {
    var end := ChunkEnd(s, c.round.cur, inp.placeLimit);
    PlaceRangeStaysInSlots(s.scale, c.plan, c.round.cur, end, DeskOf(c, inp), inp.funds);
    hide PlaceRange, Retain, PlanInv;
  }

  // ---- Progress ----

  /** Orders still to be planned or placed before the crank can leave both phases. */
  function Remaining(s: Settings, c: CrankState): int {
    match c.phase
    case PlanOrders => 2 * s.orderNum - c.plan.cur
    case PlaceOrders => s.orderNum - c.round.cur
    case _ => 0
  }

  predicate Working(c: CrankState) {
    !c.reset && (c.phase.PlanOrders? || c.phase.PlaceOrders?)
  }

  /** A step with positive limits that stays among planning and placing has less left
      to do. */
  lemma StepShrinks(s: Settings, c: CrankState, inp: Inputs)
    requires CrankInv(s, c) && Working(c) && inp.planLimit > 0 && inp.placeLimit > 0
    requires MonitorStep(s, c, inp).Success?
    ensures var r := MonitorStep(s, c, inp).value;
      && CrankInv(s, r)
      && (Working(r) ==> 0 <= Remaining(s, r) < Remaining(s, c))
  {
    match c.phase
    case PlanOrders => PlanKeeps(s, c, inp);
    case PlaceOrders => PlaceKeeps(s, c, inp);
    hide DoPlan, DoPlace, PlanInv;
  }

  /** A monitor step, and what deposits and withdrawals wrote before it. */
  datatype Turn = Turn(inp: Inputs, owed: Owed, calcX: u128, calcY: u128)

  function Found(c: CrankState, t: Turn): CrankState {
    Rewritten(c, t.owed, t.calcX, t.calcY)
  }

  /** Successful monitor steps with positive limits, at any pool totals and books and with
      any deposits and withdrawals between them, that never leave planning and placing. */
  ghost predicate KeepsWorking(s: Settings, c: CrankState, turns: seq<Turn>)
    decreases |turns|
  {
    hide MonitorStep;
    Working(c) && (turns != [] ==>
      && turns[0].inp.planLimit > 0 && turns[0].inp.placeLimit > 0
      && MonitorStep(s, Found(c, turns[0]), turns[0].inp).Success?
      && KeepsWorking(s, MonitorStep(s, Found(c, turns[0]), turns[0].inp).value, turns[1..]))
  }

  /** So, while the settings stand, the crank plans and places a ladder in at most twice
      its length of steps. */
  lemma {:induction false} WorkIsBounded(s: Settings, c: CrankState, turns: seq<Turn>)
    requires CrankInv(s, c) && KeepsWorking(s, c, turns)
    ensures |turns| <= Remaining(s, c) <= 2 * s.orderNum
    decreases |turns|
  {
    hide MonitorStep, PlanInv;
    if turns != [] {
      StepShrinks(s, Found(c, turns[0]), turns[0].inp);
      WorkIsBounded(s, MonitorStep(s, Found(c, turns[0]), turns[0].inp).value, turns[1..]);
    }
  }

  // ---- Profit taken while idle ----

  /** An idle step writes the baseline exactly when it sets more aside, and then on both
      sides at once; it writes the pool less the cuts, and with a share below one half
      never a lower product than was recorded.  Below its baseline the pool pays
      nothing and the crank cancels. */
  lemma IdleTakesProfitOnce(s: Settings, c: CrankState, inp: Inputs)
    requires s.fees.Pnl().Valid() && CoversUnits(s.scale)
    requires DoIdle(s, c, inp).Success?
    ensures var r := DoIdle(s, c, inp).value;
      && Survey(s, inp.pc, inp.coin).Success?
      && var (x, y) := Survey(s, inp.pc, inp.coin).value;
      && (r.owed.needPc > c.owed.needPc <==> r.owed.needCoin > c.owed.needCoin)
      && (r.owed.needPc > c.owed.needPc <==> r.owed != c.owed)
      && (r.owed == c.owed ==> r.calcX == c.calcX && r.calcY == c.calcY)
      && (r.owed != c.owed ==> r.calcX < x && r.calcY < y && c.calcX * c.calcY <= x * y)
      && (x * y < c.calcX * c.calcY ==> r.owed == c.owed && r.phase.CancelAllOrders?)
      && (2 * s.fees.pnlNumerator < s.fees.pnlDenominator ==> c.calcX * c.calcY <= r.calcX * r.calcY)
  {
    hide AfterIdle, TakeIdlePnl, Survey, CoversUnits, PriceInRange;
    var (x, y) := Survey(s, inp.pc, inp.coin).value;
    var cur := (x * s.scale.sysDecimalValue) / y;
    var next := AfterIdle(s, c, inp, x, y, cur);
    AfterIdleFrame(s, c, inp, x, y, cur);
    if c.calcX * c.calcY <= x * y {
      TakeIdleOnce(s, next, inp, x, y);
    }
  }

  lemma AfterIdleFrame(s: Settings, c: CrankState, inp: Inputs, x: u128, y: u128, cur: nat)
    ensures var r := AfterIdle(s, c, inp, x, y, cur);
      r.owed == c.owed && r.calcX == c.calcX && r.calcY == c.calcY
  {
  }

  lemma TakeIdleOnce(s: Settings, c: CrankState, inp: Inputs, x: u128, y: u128)
    requires s.fees.Pnl().Valid() && CoversUnits(s.scale) && c.calcX * c.calcY <= x * y
    requires TakeIdlePnl(s, c, inp, x, y).Success?
    ensures var r := TakeIdlePnl(s, c, inp, x, y).value;
      && (r.owed.needPc > c.owed.needPc <==> r.owed.needCoin > c.owed.needCoin)
      && (r.owed.needPc > c.owed.needPc <==> r.owed != c.owed)
      && (r.owed == c.owed ==> r.calcX == c.calcX && r.calcY == c.calcY)
      && (r.owed != c.owed ==> r.calcX < x && r.calcY < y)
      && (2 * s.fees.pnlNumerator < s.fees.pnlDenominator ==> c.calcX * c.calcY <= r.calcX * r.calcY)
  {
    TakingConserves(s.scale, s.fees.Pnl(), c.calcX, c.calcY, inp.pc, inp.coin, x, y);
    if 2 * s.fees.pnlNumerator < s.fees.pnlDenominator {
      TakingNeverLowersBaseline(s.scale, s.fees.Pnl(), c.calcX, c.calcY, inp.pc, inp.coin, x, y);
    }
    hide CalcTakePnl, CoversUnits;
  }
}
