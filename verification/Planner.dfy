/** Planning the order ladder: a Fibonacci-spaced row of bids below the current price
    and of asks above it, sized so that filling them keeps the pool on its curve. */
module Planner {
  import opened Checked
  import opened CeilDiv
  import opened Decimals
  import opened State

  datatype Order = Order(price: u64, vol: u64)

  type Slots = s: seq<Order> | |s| == 50 witness seq(50, _ => Order(0, 0))

  /** Every writer of the number of orders keeps it within ten. */
  type OrderCount = n: int | 0 <= n <= 10

  datatype Settings = Settings(
    scale: Scale, fees: Fees, orderNum: OrderCount, depth: u64,
    minMultiplier: u64, maxMultiplier: u64, volMaxCutRatio: u64,
    lastNumerator: u64, lastDenominator: u64)
  {
    predicate OverridesLast(i: nat) {
      i == orderNum - 1 && lastNumerator != 0 && lastDenominator != 0
    }

    function Spread(): nat {
      fees.minSeparateNumerator + fees.tradeFeeNumerator
    }
  }

  /** The plan: the pool it was made for, the pool as it would stand with all planned
      bids (or all planned asks) filled, how far planning has come, and the orders. */
  datatype Plan = Plan(
    targetX: u128, targetY: u128,
    xBuy: u128, yBuy: u128, xSell: u128, ySell: u128,
    cur: u64, buys: Slots, sells: Slots)

  datatype Quotes = Quotes(cur: u64, maxBid: u64, minAsk: u64, grid: u64)

  // ---- Prices ----

  /** The distances, in grid steps: 0, 1, 2, 3, 5, 8, ... */
  function Fib(i: nat): nat {
    if i < 3 then i else Fib(i - 1) + Fib(i - 2)
  }

  lemma {:induction false} FibMono(i: nat, j: nat)
    requires i <= j
    ensures Fib(i) <= Fib(j)
    ensures i < j ==> 0 < Fib(j)
    decreases j
  {
    if i < j {
      FibMono(i, j - 1);
      if 3 <= j {
        FibMono(1, j - 1);
      }
    }
  }

  lemma FibFits(i: nat)
    requires i <= 10
    ensures Fib(i) <= 89
  {
    FibMono(i, 10);
    assert Fib(10) == 89;
  }

  method Fibonacci(orderNum: OrderCount) returns (fb: seq<u64>)
    ensures |fb| == orderNum
    ensures forall i :: 0 <= i < orderNum ==> fb[i] == Fib(i)
  {
    fb := [];
    for i := 0 to orderNum
      invariant |fb| == i
      invariant forall j :: 0 <= j < i ==> fb[j] == Fib(j)
    {
      FibFits(i);
      if i < 3 {
        fb := fb + [i];
      } else {
        fb := fb + [fb[i - 1] + fb[i - 2]];
      }
    }
  }

  /** a * b / d; the double-width product of two words cannot overflow. */
  function MulDiv(a: nat, b: nat, d: nat): Result<nat> {
    Div(a * b, d)
  }

  function GridStep(s: Settings, cur: u64): Result<u64>
    requires s.orderNum > 0
  {
    var band :- ToU64(cur * s.depth);
    var step: u64 := (band / 100) / s.orderNum;
    Success(if step < s.scale.pcLotSize then s.scale.pcLotSize else step)
  }

  /** The current price, its margins either side, and the width of one grid step. */
  function MakeQuotes(s: Settings, cur: u64): Result<Quotes>
    requires s.orderNum > 0
  {
    var spread :- ToU64(s.Spread());
    var below :- Sub(s.fees.tradeFeeDenominator, spread);
    var bid :- MulDiv(cur, below, s.fees.tradeFeeDenominator);
    var maxBid :- ToU64(bid);
    var above :- ToU64(s.fees.tradeFeeDenominator + spread);
    var (ask, _) :- CheckedCeilDiv(cur * above, s.fees.tradeFeeDenominator);
    var minAsk :- ToU64(ask);
    var grid :- GridStep(s, cur);
    Success(Quotes(cur, maxBid, minAsk, grid))
  }

  function FloorLot(v: u64, lot: u64): Result<u64> {
    var unit :- Div(v, lot);
    ToU64(unit * lot)
  }

  function CeilLot(v: u64, lot: u64): Result<u64> {
    var (unit, _) :- CheckedCeilDiv(v, lot);
    ToU64(unit * lot)
  }

  function Distance(q: Quotes, i: nat): Result<u64> {
    ToU64(q.grid * Fib(i))
  }

  function BuyPrice(s: Settings, q: Quotes, i: nat, buys: Slots): Result<u64>
    requires i < s.orderNum
  {
    var distance :- Distance(q, i);
    var near: u64 := if distance <= q.maxBid then q.maxBid - distance else 0;
    var price :- if s.OverridesLast(i) then LastBuyPrice(s, q, i, near, buys) else Success(near);
    FloorLot(price, s.scale.pcLotSize)
  }

  /** The outermost bid may be pushed further out; where that leaves no whole tick but
      the bid two places nearer stands, it falls back to one grid step. */
  function LastBuyPrice(s: Settings, q: Quotes, i: nat, near: u64, buys: Slots): Result<u64>
    requires i < s.orderNum && s.OverridesLast(i)
  {
    var scaled :- ToU64(q.cur * s.lastDenominator);
    var asked: u64 := scaled / s.lastNumerator;
    var price := if near > asked then asked else near;
    if price >= s.scale.pcLotSize then Success(price)
    else
      :- Need(i >= 2, Underflow);
      Success(if buys[i - 2].price != 0 && buys[i - 2].price != q.grid then q.grid else price)
  }

  function SellPrice(s: Settings, q: Quotes, i: nat): Result<u64>
    requires i < s.orderNum
  {
    var distance :- Distance(q, i);
    var near :- ToU64(q.minAsk + distance);
    var price :- if s.OverridesLast(i) then LastSellPrice(s, q, i, near) else Success(near);
    CeilLot(price, s.scale.pcLotSize)
  }

  function LastSellPrice(s: Settings, q: Quotes, i: nat, near: u64): Result<u64>
    requires s.OverridesLast(i)
  {
    var scaled :- ToU64(q.cur * s.lastNumerator);
    var asked: u64 := scaled / s.lastDenominator;
    Success(if near < asked then asked else near)
  }

  // ---- Sizes ----

  /** The most that can be bought at a price before the pool, fee included, is back on
      its curve. */
  function MaxBuySize(s: Settings, price: u64, x: u128, y: u128): Result<u64> {
    var charged :- ToU64(s.fees.tradeFeeDenominator + s.fees.tradeFeeNumerator);
    var withFee :- MulDiv(price, charged, s.fees.tradeFeeDenominator);
    var scaled :- ToU128(x * s.scale.sysDecimalValue);
    var size :- Div(scaled, withFee);
    ToU64(if y <= size then size - y else 0)
  }

  function MaxSellSize(s: Settings, price: u64, x: u128, y: u128): Result<u64> {
    var charged :- ToU64(s.fees.tradeFeeDenominator + s.fees.tradeFeeNumerator);
    var withFee :- MulDiv(price, s.fees.tradeFeeDenominator, charged);
    var scaled :- ToU128(x * s.scale.sysDecimalValue);
    var kept :- Div(scaled, withFee);
    ToU64(if kept <= y then y - kept else 0)
  }

  function HeldBack(s: Settings, most: u64): Result<u64> {
    var cut :- MulDiv(s.volMaxCutRatio, most, TEN_THOUSAND);
    ToU64(cut)
  }

  /** Hold back the configured share of a maximal size, drop what is below the minimum,
      and round down to whole coin lots. */
  function Quantity(s: Settings, most: u64): Result<u64> {
    var cut :- HeldBack(s, most);
    var vol :- Sub(most, cut);
    var lot128 :- Normalize(s.scale.coinLotSize, s.scale.coinDecimals, s.scale.sysDecimalValue);
    var lot :- ToU64(lot128);
    FloorLot(if vol < s.scale.minSize then 0 else vol, lot)
  }

  // ---- Rungs ----

  /** A planned order and the pool once it is filled. */
  datatype Rung = Rung(order: Order, x: u128, y: u128)

  function PlanBuy(s: Settings, q: Quotes, i: nat, buys: Slots, x: u128, y: u128): Result<Rung>
    requires i < s.orderNum
  {
    var price :- BuyPrice(s, q, i, buys);
    var most :- if price != 0 then MaxBuySize(s, price, x, y) else Success(0);
    var qty :- Quantity(s, most);
    var cost :- MulDiv(qty, price, s.scale.sysDecimalValue);
    var x1 :- Sub(x, cost);
    var y1 :- ToU128(y + qty);
    Success(Rung(Order(price, qty), x1, y1))
  }

  function PlanSell(s: Settings, q: Quotes, i: nat, x: u128, y: u128): Result<Rung>
    requires i < s.orderNum
  {
    var price :- SellPrice(s, q, i);
    var most :- MaxSellSize(s, price, x, y);
    var qty :- Quantity(s, most);
    var y1 :- Sub(y, qty);
    var gain :- MulDiv(qty, price, s.scale.sysDecimalValue);
    var x1 :- ToU128(x + gain);
    Success(Rung(Order(price, qty), x1, y1))
  }

  function PlanRung(s: Settings, q: Quotes, i: nat, t: Plan): Result<Plan>
    requires i < s.orderNum
  {
    var buy :- PlanBuy(s, q, i, t.buys, t.xBuy, t.yBuy);
    var sell :- PlanSell(s, q, i, t.xSell, t.ySell);
    var cur :- ToU64(t.cur + 1);
    Success(t.(
      xBuy := buy.x, yBuy := buy.y, xSell := sell.x, ySell := sell.y, cur := cur,
      buys := t.buys[i := buy.order], sells := t.sells[i := sell.order]))
  }

  function PlanRange(s: Settings, q: Quotes, from: nat, end: nat, t: Plan): Result<Plan>
    requires end <= s.orderNum
    decreases if from < end then end - from else 0
  {
    if from >= end then Success(t)
    else
      var next :- PlanRung(s, q, from, t);
      PlanRange(s, q, from + 1, end, next)
  }

  // ---- One call ----

  datatype Exit = Unfinished | Abandoned | Finished

  datatype Chunk = Chunk(plan: Plan, exit: Exit)

  function Survey(s: Settings, pc: u64, coin: u64): Result<(u128, u128)> {
    var x :- Normalize(pc, s.scale.pcDecimals, s.scale.sysDecimalValue);
    var y :- Normalize(coin, s.scale.coinDecimals, s.scale.sysDecimalValue);
    Success((x, y))
  }

  function CurrentPrice(s: Settings, x: u128, y: u128): Result<u64>
    requires y != 0
  {
    var scaled :- ToU128(x * s.scale.sysDecimalValue);
    ToU64(scaled / y)
  }

  predicate PriceInRange(s: Settings, cur: nat) {
    s.scale.pcLotSize * s.minMultiplier <= cur <= s.scale.pcLotSize * s.maxMultiplier
  }

  /** Start afresh from the pool as it stands. */
  function Begin(t: Plan, x: u128, y: u128): Plan {
    t.(targetX := x, targetY := y, xBuy := x, yBuy := y, xSell := x, ySell := y)
  }

  function ChunkEnd(s: Settings, cur: nat, limit: nat): (end: nat)
    ensures end <= s.orderNum
  {
    if cur + limit > s.orderNum then s.orderNum else cur + limit
  }

  function PlanSome(s: Settings, t: Plan, limit: u16, cur: u64): Result<Chunk>
    requires s.orderNum > 0
  {
    var q :- MakeQuotes(s, cur);
    var _ :- ToU64(t.cur + limit);
    var planned :- PlanRange(s, q, t.cur, ChunkEnd(s, t.cur, limit), t);
    Success(Chunk(planned, if planned.cur == s.orderNum then Finished else Unfinished))
  }

  function PlanOrderbook(s: Settings, t: Plan, pc: u64, coin: u64, limit: u16): Result<Chunk>
  {
    if s.orderNum == t.cur then Success(Chunk(t, Finished))
    else
      var (x, y) :- Survey(s, pc, coin);
      var begun := if t.cur == 0 then Begin(t, x, y) else t;
      :- Need(x != 0 && y != 0, CheckedEmptyFunds);
      if x != begun.targetX || y != begun.targetY then Success(Chunk(begun, Abandoned))
      else
        var cur :- CurrentPrice(s, x, y);
        if !PriceInRange(s, cur) then Success(Chunk(begun, Abandoned))
        else
          :- Need(s.orderNum > 0, DivisionByZero);
          PlanSome(s, begun, limit, cur)
  }
}
