/** The crank as the program runs it: one object whose cursors, counters and order
    arrays each monitor step rewrites in place, proved against the crank's functions. */
module CrankAccount {
  import opened Checked
  import opened Decimals
  import opened Pnl
  import opened State
  import opened Planner
  import opened Placement
  import opened Crank

  class PoolCrank {
    var settings: Settings
    var phase: Phase
    var reset: bool
    var clientId: u64
    var owed: Owed
    var calcX: u128
    var calcY: u128
    var targetX: u128
    var targetY: u128
    var planXBuy: u128
    var planYBuy: u128
    var planXSell: u128
    var planYSell: u128
    var planCur: u64
    const buyOrders: array<Order>
    const sellOrders: array<Order>
    var placeCur: u64
    var validBuy: u64
    var validSell: u64
    const replaceBuy: array<u64>
    const replaceSell: array<u64>
    var placedX: u128
    var placedY: u128

    predicate Valid() {
      && buyOrders.Length == 50 && sellOrders.Length == 50 && buyOrders != sellOrders
      && replaceBuy.Length == 10 && replaceSell.Length == 10 && replaceBuy != replaceSell
    }

    function PlanView(): Plan
      requires Valid()
      reads `targetX, `targetY, `planXBuy, `planYBuy, `planXSell, `planYSell, `planCur, buyOrders, sellOrders
    {
      Plan(targetX, targetY, planXBuy, planYBuy, planXSell, planYSell, planCur, buyOrders[..], sellOrders[..])
    }

    function RoundView(): Round
      requires Valid()
      reads `placeCur, `validBuy, `validSell, `placedX, `placedY, replaceBuy, replaceSell
    {
      Round(placeCur, validBuy, validSell, replaceBuy[..], replaceSell[..], placedX, placedY)
    }

    function View(): CrankState
      requires Valid()
      reads this, buyOrders, sellOrders, replaceBuy, replaceSell
    {
      CrankState(phase, reset, clientId, owed, calcX, calcY, PlanView(), RoundView())
    }

    constructor (s: Settings, x: u128, y: u128)
      ensures Valid() && fresh(buyOrders) && fresh(sellOrders) && fresh(replaceBuy) && fresh(replaceSell)
      ensures settings == s
      ensures phase == Idle && reset && clientId == 0 && owed == Owed(0, 0, 0, 0) && calcX == x && calcY == y
      ensures planCur == placeCur == validBuy == validSell == 0
    {
      settings, phase, reset, clientId, owed, calcX, calcY := s, Idle, true, 0, Owed(0, 0, 0, 0), x, y;
      targetX, targetY, planXBuy, planYBuy, planXSell, planYSell, planCur := 0, 0, 0, 0, 0, 0, 0;
      placeCur, validBuy, validSell, placedX, placedY := 0, 0, 0, 0, 0;
      buyOrders := new Order[50](_ => Order(0, 0));
      sellOrders := new Order[50](_ => Order(0, 0));
      replaceBuy := new u64[10](_ => 0);
      replaceSell := new u64[10](_ => 0);
    }

    // ---- Planning ----

    /** Plan the bid of one rung. */
    method PlanBuySide(q: Quotes, i: nat, distance: u64) returns (r: Result<()>)
      requires Valid() && i < settings.orderNum && Distance(q, i) == Success(distance)
      modifies `planXBuy, `planYBuy, buyOrders
      ensures
        var spec := PlanBuy(settings, q, i, old(buyOrders[..]), old(planXBuy), old(planYBuy));
        if r.Success? then
          && spec.Success?
          && planXBuy == spec.value.x && planYBuy == spec.value.y
          && buyOrders[..] == old(buyOrders[..])[i := spec.value.order]
        else spec == Failure(r.error)
    {
      hide Quantity, MaxBuySize;
      var price: u64 := if distance <= q.maxBid then q.maxBid - distance else 0;
      if settings.OverridesLast(i) {
        price :- LastBuyPrice(settings, q, i, price, buyOrders[..]);
      }
      price :- FloorLot(price, settings.scale.pcLotSize);
      var most: u64 := 0;
      if price != 0 {
        most :- MaxBuySize(settings, price, planXBuy, planYBuy);
      }
      var qty: u64 :- Quantity(settings, most);
      var cost: nat :- MulDiv(qty, price, settings.scale.sysDecimalValue);
      var left: nat :- Sub(planXBuy, cost);
      planYBuy :- ToU128(planYBuy + qty);
      planXBuy := left;
      buyOrders[i] := Order(price, qty);
      return Success(());
    }

    /** Plan the ask of one rung. */
    method PlanSellSide(q: Quotes, i: nat, distance: u64) returns (r: Result<()>)
      requires Valid() && i < settings.orderNum && Distance(q, i) == Success(distance)
      modifies `planXSell, `planYSell, sellOrders
      ensures
        var spec := PlanSell(settings, q, i, old(planXSell), old(planYSell));
        if r.Success? then
          && spec.Success?
          && planXSell == spec.value.x && planYSell == spec.value.y
          && sellOrders[..] == old(sellOrders[..])[i := spec.value.order]
        else spec == Failure(r.error)
    {
      hide Quantity, MaxSellSize;
      var price: u64 :- ToU64(q.minAsk + distance);
      if settings.OverridesLast(i) {
        price :- LastSellPrice(settings, q, i, price);
      }
      price :- CeilLot(price, settings.scale.pcLotSize);
      var most: u64 :- MaxSellSize(settings, price, planXSell, planYSell);
      var qty: u64 :- Quantity(settings, most);
      var left: nat :- Sub(planYSell, qty);
      planYSell := left;
      var gain: nat :- MulDiv(qty, price, settings.scale.sysDecimalValue);
      planXSell :- ToU128(planXSell + gain);
      sellOrders[i] := Order(price, qty);
      return Success(());
    }

    /** Plan both sides of a rung and advance the cursor. */
    method PlanBothSides(q: Quotes, i: nat, step: nat) returns (r: Result<()>)
      requires Valid() && i < settings.orderNum && step == Fib(i)
      modifies `planXBuy, `planYBuy, `planXSell, `planYSell, `planCur, buyOrders, sellOrders
      ensures
        var spec := PlanRung(settings, q, i, old(PlanView()));
        if r.Success? then spec == Success(PlanView()) else spec == Failure(r.error)
    {
      hide PlanBuy, PlanSell, Fib;
      var distance := ToU64(q.grid * step);
      if distance.Failure? {
        NoDistanceNoRung(settings, q, i, PlanView());
        return Failure(distance.error);
      }
      var _ :- PlanBuySide(q, i, distance.value);
      var _ :- PlanSellSide(q, i, distance.value);
      planCur :- ToU64(planCur + 1);
      return Success(());
    }

    /** One call of the planner: whether it finished, stopped early, or has more to do. */
    method PlanOrders(pc: u64, coin: u64, limit: u16) returns (r: Result<Exit>)
      requires Valid()
      modifies `targetX, `targetY, `planXBuy, `planYBuy, `planXSell, `planYSell, `planCur, buyOrders, sellOrders
      ensures
        var spec := PlanOrderbook(settings, old(PlanView()), pc, coin, limit);
        if r.Success? then spec == Success(Chunk(PlanView(), r.value)) else spec == Failure(r.error)
    {
      hide PlanSome, PriceInRange, CurrentPrice;
      if settings.orderNum == planCur {
        return Success(Finished);
      }
      var x: u128 :- Normalize(pc, settings.scale.pcDecimals, settings.scale.sysDecimalValue);
      var y: u128 :- Normalize(coin, settings.scale.coinDecimals, settings.scale.sysDecimalValue);
      if planCur == 0 {
        targetX, targetY := x, y;
        planXBuy, planYBuy := x, y;
        planXSell, planYSell := x, y;
      }
      if x == 0 || y == 0 {
        return Failure(CheckedEmptyFunds);
      }
      if x != targetX || y != targetY {
        return Success(Abandoned);
      }
      var cur: u64 :- CurrentPrice(settings, x, y);
      if !PriceInRange(settings, cur) {
        return Success(Abandoned);
      }
      if settings.orderNum == 0 {
        return Failure(DivisionByZero);
      }
      r := PlanRungs(limit, cur);
    }

    /** Plan as many rungs as the limit allows. */
    method PlanRungs(limit: u16, cur: u64) returns (r: Result<Exit>)
      requires Valid() && settings.orderNum > 0
      modifies `planXBuy, `planYBuy, `planXSell, `planYSell, `planCur, buyOrders, sellOrders
      ensures
        var spec := PlanSome(settings, old(PlanView()), limit, cur);
        if r.Success? then spec == Success(Chunk(PlanView(), r.value)) else spec == Failure(r.error)
    {
      hide MakeQuotes, PlanRung, Fib;
      var q: Quotes :- MakeQuotes(settings, cur);
      var _ :- ToU64(planCur + limit);
      var end := ChunkEnd(settings, planCur, limit);
      var fb := Fibonacci(settings.orderNum);
      ghost var whole := PlanRange(settings, q, planCur, end, PlanView());
      var i := planCur;
      while i < end
        invariant end <= settings.orderNum
        invariant whole == PlanRange(settings, q, i, end, PlanView())
        decreases end - i
      {
        var _ :- PlanBothSides(q, i, fb[i]);
        i := i + 1;
      }
      return Success(if planCur == settings.orderNum then Finished else Unfinished);
    }

    // ---- Placing ----

    function DeskView(bids: seq<u64>, asks: seq<u64>): Desk
      requires Valid()
      reads this, replaceBuy, replaceSell
    {
      Desk(placeCur, clientId, Side(validBuy, replaceBuy[..], bids), Side(validSell, replaceSell[..], asks))
    }

    method IncrClientOrderId() returns (id: u64)
      modifies `clientId
      ensures id == clientId == NextClientId(old(clientId))
    {
      clientId := if clientId == U64_LIMIT - 1 then 0 else clientId + 1;
      if clientId == 0 {
        clientId := clientId + 1;
      }
      return clientId;
    }

    /** Give the next bid its client id, out of the waiting ones if any. */
    method TakeBidId(bids: seq<u64>, ghost asks: seq<u64>) returns (r: Result<seq<u64>>)
      requires Valid()
      modifies `clientId, `validBuy, replaceBuy
      ensures
        var spec := TakeId(old(DeskView(bids, asks)).buy, old(clientId));
        if r.Success? then
          && spec.Success?
          && DeskView(r.value, asks) == old(DeskView(bids, asks)).(buy := spec.value.0, clientId := spec.value.1)
        else spec == Failure(r.error)
    {
      if validBuy >= 10 {
        return Failure(IndexOutOfBounds);
      }
      var waiting := bids;
      if waiting == [] {
        var id := IncrClientOrderId();
        replaceBuy[validBuy] := id;
      } else if validBuy == 0 {
        replaceBuy[validBuy] := waiting[|waiting| - 1];
        waiting := waiting[..|waiting| - 1];
      } else {
        replaceBuy[validBuy] := waiting[0];
        waiting := waiting[1..];
      }
      validBuy := validBuy + 1;
      return Success(waiting);
    }

    method TakeAskId(ghost bids: seq<u64>, asks: seq<u64>) returns (r: Result<seq<u64>>)
      requires Valid()
      modifies `clientId, `validSell, replaceSell
      ensures
        var spec := TakeId(old(DeskView(bids, asks)).sell, old(clientId));
        if r.Success? then
          && spec.Success?
          && DeskView(bids, r.value) == old(DeskView(bids, asks)).(sell := spec.value.0, clientId := spec.value.1)
        else spec == Failure(r.error)
    {
      if validSell >= 10 {
        return Failure(IndexOutOfBounds);
      }
      var waiting := asks;
      if waiting == [] {
        var id := IncrClientOrderId();
        replaceSell[validSell] := id;
      } else if validSell == 0 {
        replaceSell[validSell] := waiting[|waiting| - 1];
        waiting := waiting[..|waiting| - 1];
      } else {
        replaceSell[validSell] := waiting[0];
        waiting := waiting[1..];
      }
      validSell := validSell + 1;
      return Success(waiting);
    }

    /** Place one bid; false when it cannot be funded. */
    method PlaceBid(o: Order, available: u64, bids: seq<u64>, ghost asks: seq<u64>)
      returns (r: Result<(bool, seq<u64>)>)
      requires Valid()
      modifies `clientId, `validBuy, replaceBuy
      ensures
        var spec := PlaceBuy(settings.scale, o, old(DeskView(bids, asks)), available);
        if r.Success? then spec == Success(Placed(DeskView(r.value.1, asks), r.value.0))
        else spec == Failure(r.error)
    {
      hide PriceOut, VolOut, BuyCost, TakeId;
      var price :- PriceOut(o.price, settings.scale.pcLotSize);
      var qty :- VolOut(settings.scale, o.vol);
      var cost :- BuyCost(settings.scale, price, qty);
      if cost > available {
        return Success((false, bids));
      }
      if price != 0 && qty != 0 {
        var waiting :- TakeBidId(bids, asks);
        if cost == 0 {
          return Failure(DexRejected);
        }
        return Success((true, waiting));
      }
      return Success((true, bids));
    }

    /** Place one ask; false when it cannot be funded. */
    method PlaceAsk(o: Order, available: u64, ghost bids: seq<u64>, asks: seq<u64>)
      returns (r: Result<(bool, seq<u64>)>)
      requires Valid()
      modifies `clientId, `validSell, replaceSell
      ensures
        var spec := PlaceSell(settings.scale, o, old(DeskView(bids, asks)), available);
        if r.Success? then spec == Success(Placed(DeskView(bids, r.value.1), r.value.0))
        else spec == Failure(r.error)
    {
      hide PriceOut, VolOut, TakeId;
      var price :- PriceOut(o.price, settings.scale.pcLotSize);
      var qty :- VolOut(settings.scale, o.vol);
      var cost :- ToU64(qty * settings.scale.coinLotSize);
      if cost > available {
        return Success((false, asks));
      }
      if price != 0 && qty != 0 {
        var waiting :- TakeAskId(bids, asks);
        return Success((true, waiting));
      }
      return Success((true, asks));
    }

    /** Place rungs up to `end`; false when one cannot be funded. */
    method PlaceRungs(end: nat, bids: seq<u64>, asks: seq<u64>, funds: seq<Funds>) returns (r: Result<bool>)
      requires Valid() && end <= 50
      modifies `clientId, `placeCur, `validBuy, `validSell, replaceBuy, replaceSell
      ensures
        var spec := PlaceRange(settings.scale, PlanView(), old(placeCur), end, old(DeskView(bids, asks)), funds);
        if r.Success? then
          && spec.Success?
          && spec.value.funded == r.value
          && spec.value.desk == DeskView(spec.value.desk.buy.queue, spec.value.desk.sell.queue)
        else spec == Failure(r.error)
    {
      hide PlaceBuy, PlaceSell;
      var b, a := bids, asks;
      var i, k: nat := placeCur, 0;
      ghost var plan := PlanView();
      ghost var whole := PlaceRange(settings.scale, plan, i, end, DeskView(b, a), funds);
      while i < end
        invariant k <= |funds|
        invariant PlanView() == plan
        invariant whole == PlaceRange(settings.scale, plan, i, end, DeskView(b, a), funds[k..])
        decreases end - i
      {
        if k == |funds| {
          return Failure(DexRejected);
        }
        ghost var desk, rest := DeskView(b, a), funds[k..];
        assert rest[0] == funds[k] && rest[1..] == funds[k + 1..];
        var bid :- PlaceBid(buyOrders[i], funds[k].pc, b, a);
        b := bid.1;
        if !bid.0 {
          return Success(false);
        }
        var ask :- PlaceAsk(sellOrders[i], funds[k].coin, b, a);
        a := ask.1;
        if !ask.0 {
          return Success(false);
        }
        placeCur :- ToU64(placeCur + 1);
        i, k := i + 1, k + 1;
      }
      return Success(true);
    }

    // ---- The phases ----

    method RunIdle(inp: Inputs) returns (r: Result<()>)
      requires Valid()
      modifies this
      ensures Valid() && settings == old(settings)
      ensures
        var spec := DoIdle(settings, old(View()), inp);
        if r.Success? then spec == Success(View()) else spec == Failure(r.error)
    {
      hide AfterIdle, TakeIdlePnl, Survey;
      var xy :- Survey(settings, inp.pc, inp.coin);
      var (x, y) := xy;
      if x == 0 || y == 0 {
        return Failure(CheckedEmptyFunds);
      }
      var scaled: u128 :- ToU128(x * settings.scale.sysDecimalValue);
      var cur: nat := scaled / y;
      Assess(inp, x, y, cur);
      var product: u128 :- ToU128(x * y);
      var recorded: u128 :- ToU128(calcX * calcY);
      if product < recorded {
        phase := CancelAllOrders;
        return Success(());
      }
      r := RunIdleProfit(inp, x, y);
    }

    /** Decide where an idle step leads, before profit is looked at. */
    method Assess(inp: Inputs, x: u128, y: u128, cur: nat)
      requires Valid()
      modifies `phase, `planCur
      ensures View() == AfterIdle(settings, old(View()), inp, x, y, cur)
    {
      hide PriceInRange;
      if |inp.bids| < validBuy || |inp.asks| < validSell || inp.NoOrders() || x != placedX || y != placedY {
        planCur := 0;
        phase := Phase.PlanOrders;
      } else {
        phase := Idle;
      }
      if !PriceInRange(settings, cur) {
        phase := if inp.NoOrders() then Idle else CancelAllOrders;
      }
    }

    method RunIdleProfit(inp: Inputs, x: u128, y: u128) returns (r: Result<()>)
      requires Valid()
      modifies `owed, `calcX, `calcY
      ensures
        var spec := TakeIdlePnl(settings, old(View()), inp, x, y);
        if r.Success? then spec == Success(View()) else spec == Failure(r.error)
    {
      hide CalcTakePnl;
      var t: Taking :- TakeProfit(settings.scale, settings.fees.Pnl(), calcX, calcY, inp.pc, inp.coin, x, y);
      owed :- BookOwed(owed, t);
      if t.deltaX != 0 && t.deltaY != 0 {
        calcX :- Sub(x, t.deltaX);
        calcY :- Sub(y, t.deltaY);
      }
      return Success(());
    }

    /** Open a placement round: cursor, id slots and placed amounts start from zero. */
    method StartRound()
      requires Valid()
      modifies `placeCur, `placedX, `placedY, replaceBuy, replaceSell
      ensures RoundView() == OpenRound(old(RoundView()))
    {
      placeCur, placedX, placedY := 0, 0, 0;
      ClearIds(replaceBuy);
      ClearIds(replaceSell);
    }

    method RunPlan(inp: Inputs) returns (r: Result<()>)
      requires Valid()
      modifies this, buyOrders, sellOrders, replaceBuy, replaceSell
      ensures Valid() && settings == old(settings)
      ensures
        var spec := DoPlan(settings, old(View()), inp);
        if r.Success? then spec == Success(View()) else spec == Failure(r.error)
    {
      hide PlanOrderbook, AfterPlan, RoundView;
      var fromStart := planCur == 0 && settings.orderNum != 0;
      var exit: Exit :- PlanOrders(inp.pc, inp.coin, inp.planLimit);
      FinishPlan(fromStart, exit);
      return Success(());
    }

    method FinishPlan(fromStart: bool, exit: Exit)
      requires Valid()
      modifies `validBuy, `validSell, `placeCur, `placedX, `placedY, `phase, replaceBuy, replaceSell
      ensures View() == AfterPlan(old(View()), fromStart, exit)
    {
      hide OpenRound;
      if fromStart {
        validBuy, validSell := 0, 0;
      }
      if exit.Finished? {
        StartRound();
        phase := Phase.PlaceOrders;
      } else if exit.Abandoned? {
        phase := Idle;
      }
    }

    method RunPlace(inp: Inputs) returns (r: Result<()>)
      requires Valid()
      modifies this, replaceBuy, replaceSell
      ensures Valid() && settings == old(settings)
      ensures
        var spec := DoPlace(settings, old(View()), inp);
        if r.Success? then spec == Success(View()) else spec == Failure(r.error)
    {
      hide Crank.PlaceSome, Survey;
      if inp.usedSlots > 100 {
        phase := CancelAllOrders;
        return Success(());
      }
      var xy :- Survey(settings, inp.pc, inp.coin);
      var (x, y) := xy;
      if x == 0 || y == 0 {
        return Failure(CheckedEmptyFunds);
      }
      if x != targetX || y != targetY {
        phase := Idle;
        return Success(());
      }
      r := PlaceSome(inp, x, y);
    }

    method PlaceSome(inp: Inputs, x: u128, y: u128) returns (r: Result<()>)
      requires Valid()
      modifies `clientId, `placeCur, `validBuy, `validSell, `phase, `placedX, `placedY, replaceBuy, replaceSell
      ensures
        var spec := Crank.PlaceSome(settings, old(View()), inp, x, y);
        if r.Success? then spec == Success(View()) else spec == Failure(r.error)
    {
      hide PlaceRange, Retain, AfterPlace, ChunkEnd, PlanView;
      var _ :- ToU64(placeCur + inp.placeLimit);
      var end := ChunkEnd(settings, placeCur, inp.placeLimit);
      var bids, asks := Retain(inp.bids, replaceBuy[..]), Retain(inp.asks, replaceSell[..]);
      var funded: bool :- PlaceRungs(end, bids, asks, inp.funds);
      FinishPlace(funded, x, y);
      return Success(());
    }

    method FinishPlace(funded: bool, x: u128, y: u128)
      requires Valid()
      modifies `phase, `placedX, `placedY
      ensures View() == AfterPlace(settings, old(View()), funded, x, y)
    {
      if !funded {
        phase := CancelAllOrders;
        return;
      }
      if placeCur == settings.orderNum {
        placedX, placedY := x, y;
      }
      if placeCur >= settings.orderNum {
        phase := PurgeOrders;
      }
    }

    method RunPurge(inp: Inputs)
      requires Valid()
      modifies `phase
      ensures View() == DoPurge(old(View()), inp)
    {
      if |inp.bids| <= validBuy && |inp.asks| <= validSell {
        phase := Idle;
      }
    }

    method RunCancelAll(inp: Inputs)
      requires Valid()
      modifies `reset, `phase, `planCur, `placeCur
      ensures View() == DoCancelAll(old(View()), inp)
    {
      if inp.usedSlots > 100 && inp.NoOrders() {
        return;
      }
      if reset {
        reset := false;
      }
      phase := Idle;
      planCur := 0;
      placeCur := 0;
    }

    /** Write a whole crank state back. */
    method Restore(c: CrankState)
      requires Valid()
      modifies this, buyOrders, sellOrders, replaceBuy, replaceSell
      ensures View() == c && settings == old(settings)
    {
      hide PlanView, RoundView;
      RestorePlan(c.plan);
      RestoreRound(c.round);
      RestoreRest(c);
    }

    method RestoreRest(c: CrankState)
      modifies `phase, `reset, `clientId, `owed, `calcX, `calcY
      ensures phase == c.phase && reset == c.reset && clientId == c.clientId
      ensures owed == c.owed && calcX == c.calcX && calcY == c.calcY
    {
      phase, reset, clientId, owed, calcX, calcY := c.phase, c.reset, c.clientId, c.owed, c.calcX, c.calcY;
    }

    method RestorePlan(p: Plan)
      requires Valid()
      modifies `targetX, `targetY, `planXBuy, `planYBuy, `planXSell, `planYSell, `planCur, buyOrders, sellOrders
      ensures PlanView() == p
    {
      targetX, targetY, planCur := p.targetX, p.targetY, p.cur;
      planXBuy, planYBuy, planXSell, planYSell := p.xBuy, p.yBuy, p.xSell, p.ySell;
      forall i | 0 <= i < 50 {
        buyOrders[i] := p.buys[i];
      }
      forall i | 0 <= i < 50 {
        sellOrders[i] := p.sells[i];
      }
      assert buyOrders[..] == p.buys && sellOrders[..] == p.sells;
    }

    method RestoreRound(r: Round)
      requires Valid()
      modifies `placeCur, `validBuy, `validSell, `placedX, `placedY, replaceBuy, replaceSell
      ensures RoundView() == r
    {
      placeCur, validBuy, validSell, placedX, placedY := r.cur, r.validBuy, r.validSell, r.placedX, r.placedY;
      forall i | 0 <= i < 10 {
        replaceBuy[i] := r.replaceBuy[i];
      }
      forall i | 0 <= i < 10 {
        replaceSell[i] := r.replaceSell[i];
      }
      assert replaceBuy[..] == r.replaceBuy && replaceSell[..] == r.replaceSell;
    }

    /** One monitor step as a transaction: what a failed step had already written is
        discarded. */
    method RunMonitorStep(inp: Inputs) returns (r: Result<()>)
      requires Valid()
      modifies this, buyOrders, sellOrders, replaceBuy, replaceSell
      ensures Valid() && settings == old(settings)
      ensures
        var spec := MonitorStep(settings, old(View()), inp);
        if r.Success? then spec == Success(View()) else spec == Failure(r.error) && View() == old(View())
    {
      hide MonitorStep, PlanView, RoundView;
      var before := View();
      r := Dispatch(inp);
      if r.Failure? {
        Restore(before);
      }
    }

    /** Run the phase the crank is in. */
    method Dispatch(inp: Inputs) returns (r: Result<()>)
      requires Valid()
      modifies this, buyOrders, sellOrders, replaceBuy, replaceSell
      ensures Valid() && settings == old(settings)
      ensures
        var spec := MonitorStep(settings, old(View()), inp);
        if r.Success? then spec == Success(View()) else spec == Failure(r.error)
    {
      hide DoIdle, DoPlan, DoPlace, DoPurge, DoCancelAll;
      if settings.scale.minSize == 0 {
        return Failure(MarketLotSizeIsTooLarge);
      }
      r := Success(());
      if reset {
        RunCancelAll(inp);
      } else if settings.orderNum != 0 {
        if !inp.status.OrderbookPermission() {
          return Failure(InvalidStatus);
        }
        match phase {
          case Idle => r := RunIdle(inp);
          case CancelAllOrders => RunCancelAll(inp);
          case PlanOrders => r := RunPlan(inp);
          case CancelOrder => phase := Idle;
          case PlaceOrders => r := RunPlace(inp);
          case PurgeOrders => RunPurge(inp);
          case Invalid =>
        }
      }
    }

    /** Write one setting, then tell the crank to start over. */
    method RunSetParams(change: Change) returns (r: Result<()>)
      requires Valid()
      modifies `settings, `phase, `reset
      ensures
        var spec := SetParams(old(settings), old(View()), change);
        if r.Success? then spec == Success(Tuned(settings, View()))
        else spec == Failure(r.error) && settings == old(settings) && View() == old(View())
    {
      hide PlanView, RoundView;
      match change {
        case SetPhase(v) =>
          if PhaseOf(v).None? {
            return Failure(InvalidParamsSet);
          }
          phase := PhaseOf(v).value;
        case SetOrderNum(v) =>
          if v > 10 {
            return Failure(InvalidInput);
          }
          settings := settings.(orderNum := v);
        case SetDepth(v) =>
          if !(0 < v < 100) {
            return Failure(InvalidParamsSet);
          }
          settings := settings.(depth := v);
        case SetMinMultiplier(v) =>
          if v >= settings.maxMultiplier {
            return Failure(InvalidParamsSet);
          }
          settings := settings.(minMultiplier := v);
        case SetMaxMultiplier(v) =>
          if v <= settings.maxMultiplier {
            return Failure(InvalidParamsSet);
          }
          settings := settings.(maxMultiplier := v);
        case SetVolMaxCutRatio(v) =>
          if v > TEN_THOUSAND {
            return Failure(InvalidParamsSet);
          }
          settings := settings.(volMaxCutRatio := v);
        case SetSeparate(v) =>
          if v > TEN_THOUSAND {
            return Failure(InvalidParamsSet);
          }
          settings := settings.(fees := settings.fees.(minSeparateNumerator := v));
        case SetFees(fees) =>
          if !fees.Validate() {
            return Failure(InvalidFee);
          }
          settings := settings.(fees := fees);
        case SetLastOrder(n, d) =>
          settings := settings.(lastNumerator := n, lastDenominator := d);
        case InitOrderDepth =>
          settings := settings.(orderNum := 7, depth := 3);
        case SetElsewhere =>
      }
      phase := CancelAllOrders;
      reset := true;
      return Success(());
    }
  }

  lemma NoDistanceNoRung(s: Settings, q: Quotes, i: nat, t: Plan)
    requires i < s.orderNum && Distance(q, i).Failure?
    ensures PlanRung(s, q, i, t) == Failure(Distance(q, i).error)
  {
  }

  method ClearIds(ids: array<u64>)
    requires ids.Length == 10
    modifies ids
    ensures ids[..] == ZERO_IDS
  {
    for i := 0 to 10
      invariant forall j :: 0 <= j < i ==> ids[j] == 0
    {
      ids[i] := 0;
    }
  }
}
