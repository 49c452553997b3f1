/** Two ways a ladder can go wrong, each with its exact condition: an ask at the current
    price, and a plan that aborts at its last order. */
module LadderCases {
  import opened Checked
  import opened Arith
  import opened CeilDiv
  import opened Decimals
  import opened State
  import opened Planner
  import opened Ladder

  // ---- An ask at the price ----

  /** One order a side, in native units and without any separation. */
  predicate IsNarrow(s: Settings) {
    && s.scale == Scale(0, 0, 1, 1, 1, 1)
    && s.fees.minSeparateNumerator == 0 && s.fees.tradeFeeNumerator == 0 && s.fees.tradeFeeDenominator == 10000
    && s.orderNum == 1 && s.depth == 3 && s.minMultiplier == 1 && s.maxMultiplier == 1_000_000_000
    && s.volMaxCutRatio == 500
  }

  /** The last order stays where its distance puts it. */
  predicate IsTouching(s: Settings) {
    IsNarrow(s) && s.lastNumerator == 0 && s.lastDenominator == 0
  }

  /** The last order is moved out to half the price. */
  predicate IsHalved(s: Settings) {
    IsNarrow(s) && s.lastNumerator == 2 && s.lastDenominator == 1
  }

  lemma TouchingQuotes(s: Settings, cur: u64)
    requires IsNarrow(s) && cur == 1
    ensures MakeQuotes(s, cur).Success?
    ensures var q := MakeQuotes(s, cur).value; q.cur == 1 && q.maxBid == 1 && q.minAsk == 1 && q.grid == 1
  {
    var den := s.fees.tradeFeeDenominator;
    assert cur * den == den && cur * (den - 0) == den && den / den == 1 && den % den == 0;
    assert GridStep(s, cur) == Success(1);
    assert CheckedCeilDiv(den, den) == Success((1, den));
    hide CheckedCeilDiv, GridStep;
  }

  lemma TouchingReading(v: u64, decimals: nat, sys: u64)
    requires decimals == 0 && sys == 1
    ensures Normalize(v, decimals, sys) == Success(v)
  {
    assert Pow10(0) == 1;
  }

  lemma TouchingPrices(s: Settings, q: Quotes, i: nat, buys: Slots)
    requires IsTouching(s) && q.maxBid == 1 && q.minAsk == 1 && q.grid == 1 && i == 0
    ensures BuyPrice(s, q, i, buys) == Success(1) && SellPrice(s, q, i) == Success(1)
  {
    assert Fib(i) == 0;
    assert CheckedCeilDiv(1, 1) == Success((1, 1));
    hide Fib;
  }

  lemma TouchingSizes(s: Settings, price: u64, x: u128, y: u128)
    requires IsTouching(s) && price == 1 && x == 109 && y == 100
    ensures MaxBuySize(s, price, x, y) == Success(9) && MaxSellSize(s, price, x, y) == Success(0)
  {
    var den := s.fees.tradeFeeDenominator;
    assert (price * den) / den == 1;
  }

  lemma TouchingQuantity(s: Settings, most: u64)
    requires IsTouching(s) && (most == 9 || most == 0)
    ensures Quantity(s, most) == Success(most)
  {
    TouchingReading(s.scale.coinLotSize, s.scale.coinDecimals, s.scale.sysDecimalValue);
    hide Normalize;
  }

  lemma TouchingRung(s: Settings, q: Quotes, i: nat, t: Plan)
    requires IsTouching(s) && q.maxBid == 1 && q.minAsk == 1 && q.grid == 1 && i == 0
    requires t.xBuy == t.xSell == 109 && t.yBuy == t.ySell == 100 && t.cur == 0
    ensures PlanRung(s, q, i, t).Success?
    ensures var r := PlanRung(s, q, i, t).value;
      r.buys[i] == Order(1, 9) && r.sells[i] == Order(1, 0) && r.cur == 1
  {
    TouchingPrices(s, q, i, t.buys);
    TouchingSizes(s, 1, t.xBuy, t.yBuy);
    TouchingQuantity(s, 9);
    TouchingQuantity(s, 0);
    hide BuyPrice, SellPrice, MaxBuySize, MaxSellSize, Quantity;
  }

  /** A pool of 109 pc and 100 coin at price one: the planned bid and the planned ask stand
      at the same price, the current one. */
  lemma AskCanTouchPrice(s: Settings, t: Plan, pc: u64, coin: u64, limit: u16)
    requires IsTouching(s) && t.cur == 0 && pc == 109 && coin == 100 && limit == 1
    ensures CurrentPrice(s, pc, coin) == Success(1)
    ensures var r := PlanOrderbook(s, t, pc, coin, limit);
      && r.Success? && r.value.exit.Finished?
      && r.value.plan.buys[0] == Order(1, 9)
      && r.value.plan.sells[0] == Order(1, 0)
  {
    TouchingReading(pc, s.scale.pcDecimals, s.scale.sysDecimalValue);
    TouchingReading(coin, s.scale.coinDecimals, s.scale.sysDecimalValue);
    TouchingQuotes(s, 1);
    assert CurrentPrice(s, pc, coin) == Success(1);
    hide Normalize, MakeQuotes, PlanRung, PlanRange;
    CallShape(s, t, pc, coin, limit);
    var q, begun := MakeQuotes(s, 1).value, Begun(s, t, pc, coin);
    TouchingRung(s, q, 0, begun);
    OneRung(s, q, 0, begun);
  }

  lemma OneRung(s: Settings, q: Quotes, i: nat, t: Plan)
    requires i < s.orderNum
    ensures PlanRange(s, q, i, i + 1, t) == PlanRung(s, q, i, t)
  {
    hide PlanRung;
  }

  // ---- A plan that aborts ----

  /** Both writers of the held-back share keep it within the whole. */
  predicate CutInRange(s: Settings) {
    s.volMaxCutRatio <= TEN_THOUSAND
  }

  /** The override moves the last bid below a tick, and there is no order two places
      nearer to look at. */
  predicate AbortsAtLast(s: Settings, q: Quotes, i: nat) {
    && s.OverridesLast(i) && i < 2
    && q.cur * s.lastDenominator < U64_LIMIT
    && LastBid(s, q, i) < s.scale.pcLotSize
  }

  lemma BuyPriceUnderflowsIff(s: Settings, q: Quotes, i: nat, buys: Slots)
    requires i < s.orderNum
    ensures BuyPrice(s, q, i, buys) == Failure(Underflow) <==> AbortsAtLast(s, q, i)
  {
    if i < 2 {
      assert Fib(0) == 0 && Fib(1) == 1;
    }
    hide Fib;
  }

  lemma HeldBackIsPart(s: Settings, most: u64)
    requires CutInRange(s)
    ensures var r := HeldBack(s, most); if r.Success? then r.value <= most else r.error != Underflow
  {
    MulMono(s.volMaxCutRatio, TEN_THOUSAND, most);
    DivAtMost(s.volMaxCutRatio * most, TEN_THOUSAND, most);
  }

  lemma QuantityNeverUnderflows(s: Settings, most: u64)
    requires CutInRange(s)
    ensures Quantity(s, most) != Failure(Underflow)
  {
    HeldBackIsPart(s, most);
    hide Pow10, HeldBack;
  }

  lemma PlanBuyUnderflowsIff(s: Settings, q: Quotes, i: nat, buys: Slots, x: u128, y: u128)
    requires i < s.orderNum && CutInRange(s)
    ensures PlanBuy(s, q, i, buys, x, y) == Failure(Underflow) <==> AbortsAtLast(s, q, i)
  {
    BuyPriceUnderflowsIff(s, q, i, buys);
    hide BuyPrice, Quantity, AbortsAtLast;
    var price := BuyPrice(s, q, i, buys);
    if price.Success? {
      var most := if price.value != 0 then MaxBuySize(s, price.value, x, y) else Success(0);
      if most.Success? {
        QuantityNeverUnderflows(s, most.value);
        var qty := Quantity(s, most.value);
        if qty.Success? && s.scale.sysDecimalValue > 0 {
          PlannedBuyIsPaidFor(s, price.value, most.value, qty.value, x, y);
        }
      }
    }
  }

  lemma PlanSellNeverUnderflows(s: Settings, q: Quotes, i: nat, x: u128, y: u128)
    requires i < s.orderNum && CutInRange(s)
    ensures PlanSell(s, q, i, x, y) != Failure(Underflow)
  {
    SellPriceNeverUnderflows(s, q, i);
    hide SellPrice, Quantity;
    var price := SellPrice(s, q, i);
    if price.Success? {
      var most := MaxSellSize(s, price.value, x, y);
      if most.Success? {
        QuantityNeverUnderflows(s, most.value);
        if Quantity(s, most.value).Success? {
          PlannedSellIsCovered(s, price.value, most.value, Quantity(s, most.value).value, x, y);
        }
      }
    }
  }

  lemma SellPriceNeverUnderflows(s: Settings, q: Quotes, i: nat)
    requires i < s.orderNum
    ensures SellPrice(s, q, i) != Failure(Underflow)
  {
    hide Fib;
  }

  lemma RungUnderflowsIff(s: Settings, q: Quotes, i: nat, t: Plan)
    requires i < s.orderNum && CutInRange(s)
    ensures PlanRung(s, q, i, t) == Failure(Underflow) <==> AbortsAtLast(s, q, i)
  {
    PlanBuyUnderflowsIff(s, q, i, t.buys, t.xBuy, t.yBuy);
    PlanSellNeverUnderflows(s, q, i, t.xSell, t.ySell);
    hide PlanBuy, PlanSell, AbortsAtLast;
  }

  /** A range underflows only at the last order, when all before it are planned. */
  lemma {:induction false} RangeUnderflowsIff(s: Settings, q: Quotes, from: nat, end: nat, t: Plan)
    requires from <= end <= s.orderNum && CutInRange(s)
    ensures PlanRange(s, q, from, end, t) == Failure(Underflow) <==>
      && from < end == s.orderNum
      && AbortsAtLast(s, q, s.orderNum - 1)
      && PlanRange(s, q, from, s.orderNum - 1, t).Success?
    decreases end - from
  {
    hide PlanRung;
    if from < end {
      RungUnderflowsIff(s, q, from, t);
      var next := PlanRung(s, q, from, t);
      if next.Success? {
        hide AbortsAtLast;
        RangeUnderflowsIff(s, q, from + 1, end, next.value);
      }
    }
  }

  /** When a planning call underflows: the separation is wider than its denominator, or
      the call reaches a last order that aborts. */
  lemma CallUnderflowsIff(s: Settings, t: Plan, pc: u64, coin: u64, limit: u16)
    requires CutInRange(s) && t.cur < s.orderNum && Proceeds(s, t, pc, coin)
    ensures var q := MakeQuotes(s, PriceOf(s, t, pc, coin));
      PlanOrderbook(s, t, pc, coin, limit) == Failure(Underflow) <==>
        || s.fees.tradeFeeDenominator < s.Spread() < U64_LIMIT
        || (&& q.Success? && s.orderNum - t.cur <= limit
            && AbortsAtLast(s, q.value, s.orderNum - 1)
            && PlanRange(s, q.value, t.cur, s.orderNum - 1, Begun(s, t, pc, coin)).Success?)
  {
    CallShape(s, t, pc, coin, limit);
    var begun, cur := Begun(s, t, pc, coin), PriceOf(s, t, pc, coin);
    QuotesUnderflowIff(s, cur);
    var q := MakeQuotes(s, cur);
    hide MakeQuotes, AbortsAtLast, PlanRange, CurrentPrice, PriceInRange, Survey;
    if q.Success? {
      RangeUnderflowsIff(s, q.value, t.cur, ChunkEnd(s, t.cur, limit), begun);
    }
  }

  lemma QuotesUnderflowIff(s: Settings, cur: u64)
    requires s.orderNum > 0
    ensures MakeQuotes(s, cur) == Failure(Underflow) <==> s.fees.tradeFeeDenominator < s.Spread() < U64_LIMIT
  {
    hide CheckedCeilDiv;
    CeilDivErrors(cur * (s.fees.tradeFeeDenominator + s.Spread()), s.fees.tradeFeeDenominator);
  }

  lemma CeilDivErrors(n: nat, d: nat)
    ensures CheckedCeilDiv(n, d) != Failure(Underflow)
  {
  }

  /** A pool of 109 pc and 100 coin at price one, its only bid moved out to half of that:
      less than a tick, so the look two places back aborts the whole call. */
  lemma LastOrderCanAbort(s: Settings, t: Plan, pc: u64, coin: u64, limit: u16)
    requires IsHalved(s) && t.cur == 0 && pc == 109 && coin == 100 && limit == 1
    ensures PlanOrderbook(s, t, pc, coin, limit) == Failure(Underflow)
  {
    TouchingReading(pc, s.scale.pcDecimals, s.scale.sysDecimalValue);
    TouchingReading(coin, s.scale.coinDecimals, s.scale.sysDecimalValue);
    TouchingQuotes(s, 1);
    hide Normalize, MakeQuotes, PlanOrderbook;
    assert CurrentPrice(s, pc, coin) == Success(1);
    HalvedAborts(s, MakeQuotes(s, 1).value, 0);
    CallUnderflowsIff(s, t, pc, coin, limit);
  }

  lemma HalvedAborts(s: Settings, q: Quotes, i: nat)
    requires IsHalved(s) && q.cur == 1 && q.maxBid == 1 && i == 0
    ensures AbortsAtLast(s, q, i)
  {
    assert Fib(i) == 0;
  }
}
