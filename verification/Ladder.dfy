/** What a planned ladder promises: filling it keeps the pool on its curve, it never
    crosses the price it was planned at, and how planning is cut into calls does not
    show in it. */
module Ladder {
  import opened Checked
  import opened Arith
  import opened CeilDiv
  import opened Decimals
  import opened State
  import opened Planner

  // ---- One order against the curve ----

  /** The bid is no dearer than the pool's own price once it holds the bid's coins. */
  predicate BuyOnCurve(sys: nat, x: nat, y: nat, o: Order) {
    o.vol > 0 ==> (y + o.vol) * o.price <= x * sys
  }

  /** Selling one unit less than all the ask's coins leaves the product, in quote units
      times the base, no lower. */
  predicate SellOnCurve(sys: nat, x: nat, y: nat, o: Order) {
    o.vol <= y && (sys * x + o.vol * o.price) * (y - o.vol + 1) >= (sys * x) * (y + 1)
  }

  /** Whole coin lots, and nothing below the minimum size. */
  predicate WholeLots(s: Settings, vol: nat) {
    var lot := Normalized(s.scale.coinLotSize, Pow10(s.scale.coinDecimals), s.scale.sysDecimalValue);
    lot > 0 && vol % lot == 0 && (s.scale.minSize == lot && vol > 0 ==> s.scale.minSize <= vol)
  }

  lemma QuantityInLots(s: Settings, most: u64)
    requires Quantity(s, most).Success?
    ensures Quantity(s, most).value <= most
    ensures WholeLots(s, Quantity(s, most).value)
  {
    var lot := Normalized(s.scale.coinLotSize, Pow10(s.scale.coinDecimals), s.scale.sysDecimalValue);
    var vol := most - HeldBack(s, most).value;
    FloorLotIsMultiple(if vol < s.scale.minSize then 0 else vol, lot);
  }

  /** A volume made from a maximal size: the configured share is held back, and the rest
      is dropped below the minimum and otherwise cut to whole lots by less than a lot. */
  predicate SizedFrom(s: Settings, most: nat, vol: nat) {
    var lot := Normalized(s.scale.coinLotSize, Pow10(s.scale.coinDecimals), s.scale.sysDecimalValue);
    var kept := most - (s.volMaxCutRatio * most) / TEN_THOUSAND;
    && 0 <= kept
    && WholeLots(s, vol)
    && (kept < s.scale.minSize ==> vol == 0)
    && (s.scale.minSize <= kept ==> vol <= kept < vol + lot)
  }

  lemma QuantityIsSized(s: Settings, most: u64)
    requires Quantity(s, most).Success?
    ensures SizedFrom(s, most, Quantity(s, most).value)
  {
    QuantityInLots(s, most);
    var lot := Normalized(s.scale.coinLotSize, Pow10(s.scale.coinDecimals), s.scale.sysDecimalValue);
    var vol := most - HeldBack(s, most).value;
    FloorLotIsMultiple(if vol < s.scale.minSize then 0 else vol, lot);
    hide WholeLots, Pow10;
  }

  /** The largest bid: at the fee-laden price one more coin would pass the curve, and nothing
      is bought only when even one would. */
  predicate IsMostBuy(s: Settings, price: nat, x: nat, y: nat, most: nat) {
    && s.fees.tradeFeeDenominator > 0
    && var withFee := (price * (s.fees.tradeFeeDenominator + s.fees.tradeFeeNumerator)) / s.fees.tradeFeeDenominator;
    && x * s.scale.sysDecimalValue < (y + most + 1) * withFee
    && (most > 0 ==> (y + most) * withFee <= x * s.scale.sysDecimalValue)
  }

  /** The largest ask: it leaves just the coins the curve needs at the price less the fee. */
  predicate IsMostSell(s: Settings, price: nat, x: nat, y: nat, most: nat) {
    && s.fees.tradeFeeDenominator + s.fees.tradeFeeNumerator > 0
    && var withFee := (price * s.fees.tradeFeeDenominator) / (s.fees.tradeFeeDenominator + s.fees.tradeFeeNumerator);
    && most <= y
    && (y - most) * withFee <= x * s.scale.sysDecimalValue
    && (most > 0 ==> x * s.scale.sysDecimalValue < (y - most + 1) * withFee)
  }

  /** As large as the curve and the held-back share allow; a bid without a price is void. */
  ghost predicate BuySized(s: Settings, x: nat, y: nat, o: Order) {
    if o.price == 0 then SizedFrom(s, 0, o.vol)
    else exists most: nat :: IsMostBuy(s, o.price, x, y, most) && SizedFrom(s, most, o.vol)
  }

  ghost predicate SellSized(s: Settings, x: nat, y: nat, o: Order) {
    exists most: nat :: IsMostSell(s, o.price, x, y, most) && SizedFrom(s, most, o.vol)
  }

  lemma FloorLotIsMultiple(v: u64, lot: u64)
    requires FloorLot(v, lot).Success?
    ensures lot > 0
    ensures var r := FloorLot(v, lot).value; r <= v < r + lot && r % lot == 0
    ensures v > 0 && v >= lot ==> FloorLot(v, lot).value >= lot
  {
    DivBounds(v, lot);
    ModOfMultiple(v / lot, lot);
    if v >= lot {
      DivAtLeast(v, lot, 1);
      MulMono(1, v / lot, lot);
    }
  }

  lemma BuySizeOnCurve(s: Settings, price: u64, x: u128, y: u128)
    requires price > 0 && MaxBuySize(s, price, x, y).Success?
    ensures var most := MaxBuySize(s, price, x, y).value;
      most > 0 ==> (y + most) * price <= x * s.scale.sysDecimalValue
  {
    var den := s.fees.tradeFeeDenominator;
    var charged := den + s.fees.tradeFeeNumerator;
    var withFee := (price * charged) / den;
    MulMono(den, charged, price);
    DivAtLeast(price * charged, den, price);
    var scaled := x * s.scale.sysDecimalValue;
    DivBounds(scaled, withFee);
    MulMono(price, withFee, scaled / withFee);
  }

  lemma SellSizeOnCurve(s: Settings, price: u64, x: u128, y: u128)
    requires MaxSellSize(s, price, x, y).Success?
    ensures var most := MaxSellSize(s, price, x, y).value;
      && most <= y
      && (most > 0 ==> x * s.scale.sysDecimalValue <= (y - most + 1) * price)
  {
    var den := s.fees.tradeFeeDenominator;
    var charged := den + s.fees.tradeFeeNumerator;
    var withFee := (price * den) / charged;
    MulMono(den, charged, price);
    DivAtMost(price * den, charged, price);
    var scaled := x * s.scale.sysDecimalValue;
    var kept := scaled / withFee;
    DivBounds(scaled, withFee);
    Distribute(kept, 1, withFee);
    MulMono(withFee, price, kept + 1);
  }

  /** A bid is sized to the last coin. */
  lemma BuySizeIsLargest(s: Settings, price: u64, x: u128, y: u128)
    requires price > 0 && MaxBuySize(s, price, x, y).Success?
    ensures IsMostBuy(s, price, x, y, MaxBuySize(s, price, x, y).value)
  {
    var withFee := (price * (s.fees.tradeFeeDenominator + s.fees.tradeFeeNumerator)) / s.fees.tradeFeeDenominator;
    var scaled := x * s.scale.sysDecimalValue;
    var most := MaxBuySize(s, price, x, y).value;
    DivBounds(scaled, withFee);
    Distribute(scaled / withFee, 1, withFee);
    MulMono(scaled / withFee + 1, y + most + 1, withFee);
  }

  /** An ask is sized likewise. */
  lemma SellSizeIsLargest(s: Settings, price: u64, x: u128, y: u128)
    requires MaxSellSize(s, price, x, y).Success?
    ensures IsMostSell(s, price, x, y, MaxSellSize(s, price, x, y).value)
  {
    var withFee := (price * s.fees.tradeFeeDenominator) / (s.fees.tradeFeeDenominator + s.fees.tradeFeeNumerator);
    var scaled := x * s.scale.sysDecimalValue;
    var most := MaxSellSize(s, price, x, y).value;
    DivBounds(scaled, withFee);
    Distribute(scaled / withFee, 1, withFee);
    MulMono(y - most, scaled / withFee, withFee);
  }

  /** A bid on the curve can be paid for, and paying for it keeps the product. */
  lemma FillBuy(sys: nat, x: nat, y: nat, o: Order)
    requires sys > 0 && BuyOnCurve(sys, x, y, o)
    ensures var cost := (o.vol * o.price) / sys;
      cost <= x && (x - cost) * (y + o.vol) >= x * y
  {
    var cost := (o.vol * o.price) / sys;
    if o.vol > 0 {
      DivBounds(o.vol * o.price, sys);
      MulMono(o.vol, y + o.vol, o.price);
      MulCancelLe(cost, x, sys);
      CostTimesCoins(sys, x, y, o.vol, o.price, cost);
      Distribute(x, cost, y + o.vol);
      assert x * (y + o.vol) == x * y + x * o.vol;
    } else {
      assert o.vol * o.price == 0;
    }
  }

  lemma CostTimesCoins(sys: nat, x: nat, y: nat, vol: nat, price: nat, cost: nat)
    requires sys > 0 && (y + vol) * price <= x * sys && cost * sys <= vol * price
    ensures cost * (y + vol) <= x * vol
  {
    MulMono(cost * sys, vol * price, y + vol);
    MulMono((y + vol) * price, x * sys, vol);
    SwapFactors(vol, price, y + vol);
    SwapFactors(y + vol, price, vol);
    assert (vol * (y + vol)) * price == ((y + vol) * vol) * price;
    SwapFactors(cost, sys, y + vol);
    SwapFactors(x, sys, vol);
    MulCancelLe(cost * (y + vol), x * vol, sys);
  }

  lemma FillSell(sys: nat, x: nat, y: nat, o: Order)
    requires o.vol <= y && (o.vol > 0 ==> x * sys <= (y - o.vol + 1) * o.price)
    ensures SellOnCurve(sys, x, y, o)
  {
    if o.vol > 0 {
      var kept := y - o.vol + 1;
      MulMono(x * sys, kept * o.price, o.vol);
      assert (kept * o.price) * o.vol == (o.vol * o.price) * kept;
      assert (x * sys) * o.vol == (sys * x) * o.vol;
      Distribute(sys * x, o.vol * o.price, kept);
      assert (sys * x) * kept + (sys * x) * o.vol == (sys * x) * (y + 1);
    } else {
      assert o.vol * o.price == 0;
    }
  }

  // ---- Planned orders ----

  /** The subtraction of a planned bid's cost can never fail, and filling the bid does
      not lower the product. */
  lemma PlannedBuyIsPaidFor(s: Settings, price: u64, most: u64, qty: u64, x: u128, y: u128)
    requires s.scale.sysDecimalValue > 0
    requires (if price != 0 then MaxBuySize(s, price, x, y) else Success(0)) == Success(most)
    requires Quantity(s, most) == Success(qty)
    ensures BuyOnCurve(s.scale.sysDecimalValue, x, y, Order(price, qty))
    ensures var cost := (qty * price) / s.scale.sysDecimalValue;
      cost <= x && (x - cost) * (y + qty) >= x * y
  {
    QuantityInLots(s, most);
    if qty > 0 {
      BuySizeOnCurve(s, price, x, y);
      MulMono(y + qty, y + most, price);
    }
    FillBuy(s.scale.sysDecimalValue, x, y, Order(price, qty));
  }

  /** Nor can the subtraction of a planned ask's coins. */
  lemma PlannedSellIsCovered(s: Settings, price: u64, most: u64, qty: u64, x: u128, y: u128)
    requires MaxSellSize(s, price, x, y) == Success(most)
    requires Quantity(s, most) == Success(qty)
    ensures SellOnCurve(s.scale.sysDecimalValue, x, y, Order(price, qty))
  {
    QuantityInLots(s, most);
    SellSizeOnCurve(s, price, x, y);
    if qty > 0 {
      MulMono(y - most + 1, y - qty + 1, price);
    }
    FillSell(s.scale.sysDecimalValue, x, y, Order(price, qty));
  }

  /** The pool before and after a bid is filled: it pays the order's worth in pc, rounded
      down, and gains its coins. */
  datatype Reserves = Reserves(x: nat, y: nat)

  predicate FillsBid(sys: nat, o: Order, a: Reserves, b: Reserves) {
    b.x <= a.x && IsFloor(a.x - b.x, o.vol * o.price, sys) && b.y == a.y + o.vol
  }

  /** An ask likewise: the pool gains its worth in pc, rounded down, and gives its coins. */
  predicate FillsAsk(sys: nat, o: Order, a: Reserves, b: Reserves) {
    a.x <= b.x && IsFloor(b.x - a.x, o.vol * o.price, sys) && b.y + o.vol == a.y
  }

  /** A bid as it should be in the pool it is planned against, and what filling it leaves. */
  ghost predicate GoodBid(s: Settings, o: Order, a: Reserves, b: Reserves) {
    && BuyOnCurve(s.scale.sysDecimalValue, a.x, a.y, o)
    && WholeLots(s, o.vol)
    && BuySized(s, a.x, a.y, o)
    && FillsBid(s.scale.sysDecimalValue, o, a, b)
    && b.x * b.y >= a.x * a.y
  }

  ghost predicate GoodAsk(s: Settings, o: Order, a: Reserves, b: Reserves) {
    && SellOnCurve(s.scale.sysDecimalValue, a.x, a.y, o)
    && WholeLots(s, o.vol)
    && SellSized(s, a.x, a.y, o)
    && FillsAsk(s.scale.sysDecimalValue, o, a, b)
  }

  lemma BidFills(sys: nat, o: Order, x: nat, y: nat, cost: nat)
    requires sys > 0 && cost == (o.vol * o.price) / sys && cost <= x
    ensures FillsBid(sys, o, Reserves(x, y), Reserves(x - cost, y + o.vol))
  {
    FloorIs(o.vol * o.price, sys);
  }

  lemma AskFills(sys: nat, o: Order, x: nat, y: nat, gain: nat)
    requires sys > 0 && o.vol <= y && gain == (o.vol * o.price) / sys
    ensures FillsAsk(sys, o, Reserves(x, y), Reserves(x + gain, y - o.vol))
  {
    FloorIs(o.vol * o.price, sys);
  }

  lemma PlanBuyOnCurve(s: Settings, q: Quotes, i: nat, buys: Slots, x: u128, y: u128)
    requires i < s.orderNum && PlanBuy(s, q, i, buys, x, y).Success?
    ensures var r := PlanBuy(s, q, i, buys, x, y).value; GoodBid(s, r.order, Reserves(x, y), Reserves(r.x, r.y))
  {
    hide BuyPrice, MaxBuySize, Quantity, WholeLots, SizedFrom, BuyOnCurve, IsMostBuy, FillsBid;
    var price := BuyPrice(s, q, i, buys).value;
    var most := if price != 0 then MaxBuySize(s, price, x, y).value else 0;
    var qty := Quantity(s, most).value;
    PlannedBuyIsPaidFor(s, price, most, qty, x, y);
    QuantityInLots(s, most);
    QuantityIsSized(s, most);
    if price != 0 {
      BuySizeIsLargest(s, price, x, y);
    }
    assert BuySized(s, x, y, Order(price, qty));
    var cost := MulDiv(qty, price, s.scale.sysDecimalValue).value;
    BidFills(s.scale.sysDecimalValue, Order(price, qty), x, y, cost);
    hide BuySized;
  }

  lemma PlanSellOnCurve(s: Settings, q: Quotes, i: nat, x: u128, y: u128)
    requires i < s.orderNum && PlanSell(s, q, i, x, y).Success?
    ensures var r := PlanSell(s, q, i, x, y).value; GoodAsk(s, r.order, Reserves(x, y), Reserves(r.x, r.y))
  {
    hide SellPrice, MaxSellSize, Quantity, WholeLots, SellOnCurve, SizedFrom, IsMostSell, FillsAsk;
    var price := SellPrice(s, q, i).value;
    var most := MaxSellSize(s, price, x, y).value;
    var qty := Quantity(s, most).value;
    PlannedSellIsCovered(s, price, most, qty, x, y);
    QuantityInLots(s, most);
    QuantityIsSized(s, most);
    SellSizeIsLargest(s, price, x, y);
    assert SellSized(s, x, y, Order(price, qty));
    var gain := MulDiv(qty, price, s.scale.sysDecimalValue).value;
    AskFills(s.scale.sysDecimalValue, Order(price, qty), x, y, gain);
    hide SellSized;
    assert SellOnCurve(s.scale.sysDecimalValue, x, y, PlanSell(s, q, i, x, y).value.order);
  }

  // ---- Prices ----

  /** Both writers of the grid depth keep it under a hundred percent. */
  predicate DepthInRange(s: Settings) {
    s.depth < 100
  }

  lemma QuotesBracketPrice(s: Settings, cur: u64)
    requires s.orderNum > 0 && DepthInRange(s) && MakeQuotes(s, cur).Success?
    ensures var q := MakeQuotes(s, cur).value;
      && q.cur == cur
      && q.maxBid <= cur
      && (cur > 0 ==> cur <= q.minAsk)
      && (cur > 0 && s.Spread() > 0 ==> cur < q.minAsk)
      && (cur > 0 && s.Spread() == 0 ==> cur == q.minAsk)
      && s.scale.pcLotSize <= q.grid
      && (s.scale.pcLotSize <= cur ==> q.grid <= cur)
  {
    var den := s.fees.tradeFeeDenominator;
    MulMono(den - s.Spread(), den, cur);
    DivAtMost(cur * (den - s.Spread()), den, cur);
    AskAbovePrice(cur, den, s.Spread());
    GridBelowPrice(s, cur);
  }

  /** The greatest price at or below the separation under the current one, the least at or
      above it, and a grid step of the depth's share of the price for each order, rounded
      down, but no less than a tick. */
  predicate TightQuotes(s: Settings, cur: nat, q: Quotes) {
    var den, spread := s.fees.tradeFeeDenominator, s.Spread();
    && q.cur == cur
    && spread <= den
    && var below: nat, above: nat := den - spread, den + spread;
    && IsFloor(q.maxBid, cur * below, den)
    && IsRoundedUp(q.minAsk, cur * above, den)
    && s.scale.pcLotSize <= q.grid
    && cur * s.depth < (q.grid + 1) * (100 * s.orderNum)
    && (s.scale.pcLotSize < q.grid ==> q.grid * (100 * s.orderNum) <= cur * s.depth)
  }

  lemma MarginsAreTight(s: Settings, cur: u64)
    requires s.orderNum > 0 && MakeQuotes(s, cur).Success?
    ensures TightQuotes(s, cur, MakeQuotes(s, cur).value)
  {
    var den := s.fees.tradeFeeDenominator;
    FloorIs(cur * (den - s.Spread()), den);
    RoundedUpIs(cur * (den + s.Spread()), den);
    GridIs(s, cur);
    hide CheckedCeilDiv, IsFloor, IsRoundedUp, GridStep;
  }

  lemma GridIs(s: Settings, cur: u64)
    requires s.orderNum > 0 && GridStep(s, cur).Success?
    ensures var grid := GridStep(s, cur).value;
      && s.scale.pcLotSize <= grid
      && cur * s.depth < (grid + 1) * (100 * s.orderNum)
      && (s.scale.pcLotSize < grid ==> grid * (100 * s.orderNum) <= cur * s.depth)
  {
    StepIs(cur * s.depth, s.orderNum, GridStep(s, cur).value);
  }

  lemma StepIs(band: nat, n: nat, grid: nat)
    requires n > 0 && (band / 100) / n <= grid
    ensures band < (grid + 1) * (100 * n)
    ensures grid == (band / 100) / n ==> grid * (100 * n) <= band
  {
    var step := (band / 100) / n;
    DivBounds(band, 100);
    DivBounds(band / 100, n);
    Distribute(step, 1, n);
    assert step * (100 * n) == 100 * (step * n);
    assert (step + 1) * (100 * n) == 100 * ((step + 1) * n);
    MulMono(step + 1, grid + 1, 100 * n);
  }

  lemma AskAbovePrice(cur: nat, den: nat, spread: nat)
    requires 0 < den && CheckedCeilDiv(cur * (den + spread), den).Success?
    ensures var ask := CheckedCeilDiv(cur * (den + spread), den).value.0;
      cur > 0 ==> cur <= ask && (cur < ask <==> spread > 0)
  {
    if cur > 0 {
      var n := cur * (den + spread);
      assert n == cur * den + cur * spread;
      MulMono(1, cur, den);
      MulMono(0, cur, spread);
      QuotientIsCeiling(n, den);
      var ask := Ceil(n, den);
      MulCancelLe(cur, ask, den);
      if spread == 0 {
        CeilUnique(n, den, cur);
      } else {
        MulMono(1, cur, spread);
        MulCancelLt(cur, ask, den);
      }
    }
  }

  lemma GridBelowPrice(s: Settings, cur: u64)
    requires s.orderNum > 0 && DepthInRange(s) && GridStep(s, cur).Success?
    ensures s.scale.pcLotSize <= GridStep(s, cur).value
    ensures s.scale.pcLotSize <= cur ==> GridStep(s, cur).value <= cur
  {
    var band := cur * s.depth;
    MulMono(s.depth, 100, cur);
    DivAtMost(band, 100, cur);
    MulMono(1, s.orderNum, cur);
    DivAtMost(band / 100, s.orderNum, cur);
  }

  /** Where a bid and an ask stand, before ticks, when the last order is not moved. */
  function BidNear(q: Quotes, i: nat): nat {
    if q.grid * Fib(i) <= q.maxBid then q.maxBid - q.grid * Fib(i) else 0
  }

  function AskNear(q: Quotes, i: nat): nat {
    q.minAsk + q.grid * Fib(i)
  }

  function BidAt(q: Quotes, lot: nat, i: nat): nat
    requires lot > 0
  {
    TicksDown(BidNear(q, i), lot)
  }

  function AskAt(q: Quotes, lot: nat, i: nat): nat
    requires lot > 0
  {
    TicksUp(AskNear(q, i), lot)
  }

  /** The share n / d of a price. */
  function Fraction(v: nat, n: nat, d: nat): nat
    requires d > 0
  {
    (v * n) / d
  }

  /** Where the override asks a moved last order to stand at the nearest. */
  function LastBid(s: Settings, q: Quotes, i: nat): nat
    requires s.OverridesLast(i)
  {
    var asked := Fraction(q.cur, s.lastDenominator, s.lastNumerator);
    if BidNear(q, i) > asked then asked else BidNear(q, i)
  }

  function LastAsk(s: Settings, q: Quotes): nat
    requires s.lastDenominator != 0
  {
    Fraction(q.cur, s.lastNumerator, s.lastDenominator)
  }

  /** The ask before ticks, moved or not. */
  function AskTarget(s: Settings, q: Quotes, i: nat): nat {
    if s.OverridesLast(i) && AskNear(q, i) < LastAsk(s, q) then LastAsk(s, q) else AskNear(q, i)
  }

  /** The bid before ticks: in its place; or moved out; or, where that leaves less than a
      tick but the bid two places nearer stands away from one grid step, at one grid step. */
  function BidTarget(s: Settings, q: Quotes, i: nat, nearer: nat): nat {
    if !s.OverridesLast(i) then BidNear(q, i)
    else if LastBid(s, q, i) < s.scale.pcLotSize && nearer != 0 && nearer != q.grid then q.grid
    else LastBid(s, q, i)
  }

  /** The price of the bid two places nearer, if there is one. */
  function Nearer(buys: Slots, i: nat): nat
    requires i < 52
  {
    if i < 2 then 0 else buys[i - 2].price
  }

  function TicksDown(v: nat, lot: nat): nat
    requires lot > 0
  {
    (v / lot) * lot
  }

  function TicksUp(v: nat, lot: nat): nat
    requires lot > 0
  {
    Ceil(v, lot) * lot
  }

  /** A standing bid two places nearer shows that a grid step does not reach above the
      current price. */
  lemma BuyPriceBelow(s: Settings, q: Quotes, i: nat, buys: Slots)
    requires i < s.orderNum && DepthInRange(s) && MakeQuotes(s, q.cur) == Success(q)
    requires i >= 2 && buys[i - 2].price != 0 ==> s.scale.pcLotSize <= q.cur
    requires BuyPrice(s, q, i, buys).Success?
    ensures var lot, price := s.scale.pcLotSize, BuyPrice(s, q, i, buys).value;
      && 0 < lot
      && price % lot == 0
      && price <= q.cur
      && price == TicksDown(BidTarget(s, q, i, Nearer(buys, i)), lot)
  {
    QuotesBracketPrice(s, q.cur);
    hide MakeQuotes;
    var away := Distance(q, i).value;
    var near: u64 := if away <= q.maxBid then q.maxBid - away else 0;
    assert near == BidNear(q, i);
    if s.OverridesLast(i) {
      FloorLotIsMultiple(LastBuyPrice(s, q, i, near, buys).value, s.scale.pcLotSize);
    } else {
      FloorLotIsMultiple(near, s.scale.pcLotSize);
    }
    hide Fib;
  }

  /** A nonzero rounded-up price is the exact ceiling. */
  lemma CeilLotIsCeiling(v: u64, lot: u64)
    requires CeilLot(v, lot).Success? && CeilLot(v, lot).value > 0
    ensures lot > 0
    ensures CeilLot(v, lot).value == Ceil(v, lot) * lot
    ensures v <= CeilLot(v, lot).value < v + lot
    ensures CeilLot(v, lot).value % lot == 0
  {
    QuotientIsCeiling(v, lot);
    var unit := CheckedCeilDiv(v, lot).value.0;
    assert 0 * lot == 0;
    ModOfMultiple(unit, lot);
  }

  lemma SellPriceAbove(s: Settings, q: Quotes, i: nat)
    requires i < s.orderNum && DepthInRange(s) && MakeQuotes(s, q.cur) == Success(q)
    requires SellPrice(s, q, i).Success? && SellPrice(s, q, i).value > 0
    ensures var lot, price := s.scale.pcLotSize, SellPrice(s, q, i).value;
      && 0 < lot
      && price % lot == 0
      && q.cur <= price
      && (s.Spread() > 0 ==> q.cur < price)
      && price == TicksUp(AskTarget(s, q, i), lot)
  {
    QuotesBracketPrice(s, q.cur);
    hide MakeQuotes;
    var near := q.minAsk + Distance(q, i).value;
    if s.OverridesLast(i) {
      CeilLotIsCeiling(LastSellPrice(s, q, i, near).value, s.scale.pcLotSize);
    } else {
      CeilLotIsCeiling(near, s.scale.pcLotSize);
    }
  }

  /** A price of zero has no size: the division by it fails. */
  lemma SizedPriceIsPositive(s: Settings, price: u64, x: u128, y: u128)
    requires MaxSellSize(s, price, x, y).Success?
    ensures price > 0
  {
    assert 0 * s.fees.tradeFeeDenominator == 0;
  }

  // ---- The ladder ----

  /** One planned pair: whole ticks, whole lots, and the current price between them. */
  predicate RungOk(s: Settings, q: Quotes, i: nat, nearer: nat, buy: Order, sell: Order) {
    var lot := s.scale.pcLotSize;
    && 0 < lot
    && buy.price % lot == 0 && sell.price % lot == 0
    && buy.price <= q.cur <= sell.price
    && (s.Spread() > 0 ==> q.cur < sell.price)
    && WholeLots(s, buy.vol) && WholeLots(s, sell.vol)
    && buy.price == TicksDown(BidTarget(s, q, i, nearer), lot)
    && sell.price == TicksUp(AskTarget(s, q, i), lot)
  }

  predicate LadderOk(s: Settings, q: Quotes, t: Plan, n: nat) {
    forall i :: 0 <= i < n && i < 50 ==> RungOk(s, q, i, Nearer(t.buys, i), t.buys[i], t.sells[i])
  }

  lemma PlannedRungIsOk(s: Settings, q: Quotes, i: nat, t: Plan)
    requires i < s.orderNum && DepthInRange(s) && MakeQuotes(s, q.cur) == Success(q)
    requires LadderOk(s, q, t, i)
    requires PlanRung(s, q, i, t).Success?
    ensures LadderOk(s, q, PlanRung(s, q, i, t).value, i + 1)
  {
    var buy := PlanBuy(s, q, i, t.buys, t.xBuy, t.yBuy).value;
    var sell := PlanSell(s, q, i, t.xSell, t.ySell).value;
    assert RungOk(s, q, i, Nearer(t.buys, i), buy.order, sell.order) by {
      NearerBidIsATick(s, q, i, t);
      RungParts(s, q, i, t);
    }
    hide RungOk, PlanBuy, PlanSell;
    var r := PlanRung(s, q, i, t).value;
    forall j | 0 <= j < i + 1 && j < 50 ensures RungOk(s, q, j, Nearer(r.buys, j), r.buys[j], r.sells[j]) {
      assert Nearer(r.buys, j) == Nearer(t.buys, j);
    }
  }

  lemma NearerBidIsATick(s: Settings, q: Quotes, i: nat, t: Plan)
    requires i < s.orderNum && LadderOk(s, q, t, i)
    ensures i >= 2 && t.buys[i - 2].price != 0 ==> s.scale.pcLotSize <= q.cur
  {
    if i >= 2 && t.buys[i - 2].price != 0 {
      assert RungOk(s, q, i - 2, Nearer(t.buys, i - 2), t.buys[i - 2], t.sells[i - 2]);
      MultipleIsAtLeast(t.buys[i - 2].price, s.scale.pcLotSize);
    }
  }

  lemma MultipleIsAtLeast(v: nat, lot: nat)
    requires lot > 0 && v > 0 && v % lot == 0
    ensures lot <= v
  {
  }

  lemma RungParts(s: Settings, q: Quotes, i: nat, t: Plan)
    requires i < s.orderNum && DepthInRange(s) && MakeQuotes(s, q.cur) == Success(q)
    requires i >= 2 && t.buys[i - 2].price != 0 ==> s.scale.pcLotSize <= q.cur
    requires PlanRung(s, q, i, t).Success?
    ensures RungOk(s, q, i, Nearer(t.buys, i),
      PlanBuy(s, q, i, t.buys, t.xBuy, t.yBuy).value.order,
      PlanSell(s, q, i, t.xSell, t.ySell).value.order)
  {
    var sellPrice := SellPrice(s, q, i).value;
    SizedPriceIsPositive(s, sellPrice, t.xSell, t.ySell);
    BuyPriceBelow(s, q, i, t.buys);
    SellPriceAbove(s, q, i);
    PlanBuyOnCurve(s, q, i, t.buys, t.xBuy, t.yBuy);
    PlanSellOnCurve(s, q, i, t.xSell, t.ySell);
    hide BuyPrice, SellPrice, MaxBuySize, MaxSellSize, Quantity, WholeLots, BidTarget, AskTarget, MakeQuotes,
      BuySized, SellSized, IsFloor;
  }

  // ---- A range of rungs ----

  lemma RungFrame(s: Settings, q: Quotes, i: nat, t: Plan)
    requires i < s.orderNum && PlanRung(s, q, i, t).Success?
    ensures var r := PlanRung(s, q, i, t).value;
      && r.targetX == t.targetX && r.targetY == t.targetY && r.cur == t.cur + 1
      && (forall j :: 0 <= j < 50 && j != i ==> r.buys[j] == t.buys[j] && r.sells[j] == t.sells[j])
      && r.xBuy * r.yBuy >= t.xBuy * t.yBuy
      && r.ySell <= t.ySell
  {
    PlanBuyOnCurve(s, q, i, t.buys, t.xBuy, t.yBuy);
    PlanSellOnCurve(s, q, i, t.xSell, t.ySell);
    hide PlanBuy, PlanSell, WholeLots, SellOnCurve, BuyOnCurve, BuySized, SellSized, IsFloor;
  }

  lemma {:induction false} RangeFrame(s: Settings, q: Quotes, from: nat, end: nat, t: Plan)
    requires from <= end <= s.orderNum && PlanRange(s, q, from, end, t).Success?
    ensures var r := PlanRange(s, q, from, end, t).value;
      && r.targetX == t.targetX && r.targetY == t.targetY && r.cur == t.cur + (end - from)
      && (forall j :: 0 <= j < 50 && !(from <= j < end) ==> r.buys[j] == t.buys[j] && r.sells[j] == t.sells[j])
    decreases end - from
  {
    hide PlanRung;
    if from < end {
      RungFrame(s, q, from, t);
      RangeFrame(s, q, from + 1, end, PlanRung(s, q, from, t).value);
    }
  }

  /** Planning a range is planning its two parts in turn. */
  lemma {:induction false} RangeSplit(s: Settings, q: Quotes, from: nat, mid: nat, end: nat, t: Plan)
    requires from <= mid <= end <= s.orderNum
    ensures PlanRange(s, q, from, end, t) ==
      var first := PlanRange(s, q, from, mid, t);
      if first.Failure? then first else PlanRange(s, q, mid, end, first.value)
    decreases mid - from
  {
    hide PlanRung;
    if from < mid {
      var next := PlanRung(s, q, from, t);
      if next.Success? {
        RangeSplit(s, q, from + 1, mid, end, next.value);
      }
    }
  }

  /** However many bids are filled, in the order planned, the product does not fall. */
  lemma {:induction false} RangeKeepsCurve(s: Settings, q: Quotes, from: nat, end: nat, t: Plan)
    requires from <= end <= s.orderNum && PlanRange(s, q, from, end, t).Success?
    ensures var r := PlanRange(s, q, from, end, t).value;
      r.xBuy * r.yBuy >= t.xBuy * t.yBuy && r.ySell <= t.ySell
    decreases end - from
  {
    hide PlanRung;
    if from < end {
      RungFrame(s, q, from, t);
      RangeKeepsCurve(s, q, from + 1, end, PlanRung(s, q, from, t).value);
    }
  }

  /** The plan just before rung i, and the orders the finished range holds at i. */
  lemma RangeAt(s: Settings, q: Quotes, from: nat, i: nat, end: nat, t: Plan)
    requires from <= i < end <= s.orderNum && PlanRange(s, q, from, end, t).Success?
    ensures PlanRange(s, q, from, i, t).Success?
    ensures var before := PlanRange(s, q, from, i, t).value;
      && PlanRung(s, q, i, before).Success?
      && PlanRange(s, q, from, end, t).value.buys[i] == PlanRung(s, q, i, before).value.buys[i]
      && PlanRange(s, q, from, end, t).value.sells[i] == PlanRung(s, q, i, before).value.sells[i]
  {
    RangeSplit(s, q, from, i, end, t);
    var before := PlanRange(s, q, from, i, t).value;
    RangeTail(s, q, i, end, before);
  }

  lemma RangeTail(s: Settings, q: Quotes, i: nat, end: nat, t: Plan)
    requires i < end <= s.orderNum && PlanRange(s, q, i, end, t).Success?
    ensures PlanRung(s, q, i, t).Success?
    ensures var r, n := PlanRange(s, q, i, end, t).value, PlanRung(s, q, i, t).value;
      r.buys[i] == n.buys[i] && r.sells[i] == n.sells[i]
  {
    hide PlanRung;
    RangeFrame(s, q, i + 1, end, PlanRung(s, q, i, t).value);
  }

  /** Where a plan stands with its bids filled, and with its asks. */
  function BidSide(t: Plan): Reserves {
    Reserves(t.xBuy, t.yBuy)
  }

  function AskSide(t: Plan): Reserves {
    Reserves(t.xSell, t.ySell)
  }

  /** Every planned order, met in the pool that the nearer ones leave, keeps the curve and is
      as large as the curve and the held-back share allow; filling it leaves the next pool. */
  lemma EveryOrderOnCurve(s: Settings, q: Quotes, from: nat, i: nat, end: nat, t: Plan)
    requires from <= i < end <= s.orderNum && PlanRange(s, q, from, end, t).Success?
    ensures PlanRange(s, q, from, i, t).Success? && PlanRange(s, q, from, i + 1, t).Success?
    ensures var before, after := PlanRange(s, q, from, i, t).value, PlanRange(s, q, from, i + 1, t).value;
      var r := PlanRange(s, q, from, end, t).value;
      && GoodBid(s, r.buys[i], BidSide(before), BidSide(after))
      && GoodAsk(s, r.sells[i], AskSide(before), AskSide(after))
  {
    RangeAt(s, q, from, i, end, t);
    var before := PlanRange(s, q, from, i, t).value;
    RangeSplit(s, q, from, i, i + 1, t);
    OneMore(s, q, i, before);
    PlanBuyOnCurve(s, q, i, before.buys, before.xBuy, before.yBuy);
    PlanSellOnCurve(s, q, i, before.xSell, before.ySell);
    hide PlanBuy, PlanSell, PlanRange, GoodBid, GoodAsk;
  }

  lemma OneMore(s: Settings, q: Quotes, i: nat, t: Plan)
    requires i < s.orderNum
    ensures PlanRange(s, q, i, i + 1, t) == PlanRung(s, q, i, t)
  {
    hide PlanRung;
  }

  lemma {:induction false} RangeIsOk(s: Settings, q: Quotes, from: nat, end: nat, t: Plan)
    requires from <= end <= s.orderNum && 0 < s.orderNum && DepthInRange(s) && MakeQuotes(s, q.cur) == Success(q)
    requires LadderOk(s, q, t, from) && PlanRange(s, q, from, end, t).Success?
    ensures LadderOk(s, q, PlanRange(s, q, from, end, t).value, end)
    decreases end - from
  {
    hide PlanRung, LadderOk, MakeQuotes;
    if from < end {
      PlannedRungIsOk(s, q, from, t);
      RangeIsOk(s, q, from + 1, end, PlanRung(s, q, from, t).value);
    }
  }

  /** Away from a moved last order, bids fall and asks rise with distance. */
  lemma LadderIsMonotone(s: Settings, q: Quotes, t: Plan, n: nat, i: nat, j: nat)
    requires i <= j < n <= 50 && LadderOk(s, q, t, n)
    requires !s.OverridesLast(i) && !s.OverridesLast(j)
    ensures t.buys[j].price <= t.buys[i].price
    ensures t.sells[i].price <= t.sells[j].price
  {
    assert RungOk(s, q, i, Nearer(t.buys, i), t.buys[i], t.sells[i]);
    assert RungOk(s, q, j, Nearer(t.buys, j), t.buys[j], t.sells[j]);
    FibMono(i, j);
    BidsFallAsksRise(q, s.scale.pcLotSize, i, j);
    hide WholeLots, BidNear, TicksDown, TicksUp, AskNear, LadderOk;
  }

  lemma TicksDownMono(a: nat, b: nat, lot: nat)
    requires lot > 0 && a <= b
    ensures TicksDown(a, lot) <= TicksDown(b, lot)
  {
    DivMono(a, b, lot);
    MulMono(a / lot, b / lot, lot);
  }

  lemma TicksUpMono(a: nat, b: nat, lot: nat)
    requires lot > 0 && a <= b
    ensures TicksUp(a, lot) <= TicksUp(b, lot)
  {
    hide Ceil;
    CeilMono(a, b, lot);
    MulMono(Ceil(a, lot), Ceil(b, lot), lot);
  }

  lemma BidsFallAsksRise(q: Quotes, lot: nat, i: nat, j: nat)
    requires lot > 0 && Fib(i) <= Fib(j)
    ensures BidAt(q, lot, j) <= BidAt(q, lot, i)
    ensures AskAt(q, lot, i) <= AskAt(q, lot, j)
  {
    hide Fib, TicksDown, TicksUp;
    MulMono(Fib(i), Fib(j), q.grid);
    TicksDownMono(BidNear(q, j), BidNear(q, i), lot);
    TicksUpMono(AskNear(q, i), AskNear(q, j), lot);
  }

  // ---- Whole calls ----

  /** The call gets as far as planning rungs. */
  predicate Proceeds(s: Settings, t: Plan, pc: u64, coin: u64) {
    && 0 < s.orderNum && s.orderNum != t.cur
    && Survey(s, pc, coin).Success?
    && var (x, y) := Survey(s, pc, coin).value;
    && x != 0 && y != 0
    && (t.cur == 0 || (x == t.targetX && y == t.targetY))
    && CurrentPrice(s, x, y).Success?
    && PriceInRange(s, CurrentPrice(s, x, y).value)
  }

  function Begun(s: Settings, t: Plan, pc: u64, coin: u64): Plan
    requires Survey(s, pc, coin).Success?
  {
    var (x, y) := Survey(s, pc, coin).value;
    if t.cur == 0 then Begin(t, x, y) else t
  }

  function PriceOf(s: Settings, t: Plan, pc: u64, coin: u64): u64
    requires Proceeds(s, t, pc, coin)
  {
    var (x, y) := Survey(s, pc, coin).value;
    CurrentPrice(s, x, y).value
  }

  lemma CallShape(s: Settings, t: Plan, pc: u64, coin: u64, limit: u16)
    requires Proceeds(s, t, pc, coin)
    ensures PlanOrderbook(s, t, pc, coin, limit)
      == PlanSome(s, Begun(s, t, pc, coin), limit, PriceOf(s, t, pc, coin))
  {
    hide PlanSome, CurrentPrice, Survey, PriceInRange;
  }

  /** A call that plans nothing does the same whatever its limit. */
  lemma StoppedCall(s: Settings, t: Plan, pc: u64, coin: u64, limit: u16, other: u16)
    requires 0 < s.orderNum && !Proceeds(s, t, pc, coin)
    ensures PlanOrderbook(s, t, pc, coin, limit) == PlanOrderbook(s, t, pc, coin, other)
    ensures var r := PlanOrderbook(s, t, pc, coin, limit);
      r.Success? ==>
        && !r.value.exit.Unfinished?
        && LadderFrame(t, r.value.plan)
        && (r.value.exit.Finished? ==> t.cur == s.orderNum)
  {
    hide PlanSome, CurrentPrice, Survey, PriceInRange;
  }

  /** Only the fields of a fresh start may differ, and those only at the start. */
  predicate LadderFrame(t: Plan, r: Plan) {
    r.cur == t.cur && r.buys == t.buys && r.sells == t.sells && (t.cur > 0 ==> r == t)
  }

  function PlanAll(s: Settings, t: Plan, pc: u64, coin: u64, limits: seq<u16>): Result<Chunk>
    decreases |limits|
  {
    hide PlanOrderbook;
    if limits == [] then Success(Chunk(t, Unfinished))
    else
      var c :- PlanOrderbook(s, t, pc, coin, limits[0]);
      if c.exit.Unfinished? then PlanAll(s, c.plan, pc, coin, limits[1..]) else Success(c)
  }

  function Total(limits: seq<u16>): nat {
    if limits == [] then 0 else limits[0] + Total(limits[1..])
  }

  /** While the pool stands still, any cutting of the work into calls that cover it
      gives the one-call result, or the one-call failure. */
  lemma {:induction false} ChunksAgree(s: Settings, t: Plan, pc: u64, coin: u64, limits: seq<u16>, whole: u16)
    requires 0 < s.orderNum && t.cur <= s.orderNum
    requires limits != [] && forall k :: 0 <= k < |limits| ==> limits[k] > 0
    requires s.orderNum - t.cur <= Total(limits) && s.orderNum - t.cur <= whole
    ensures PlanAll(s, t, pc, coin, limits) == PlanOrderbook(s, t, pc, coin, whole)
    decreases |limits|
  {
    hide PlanOrderbook, Survey, CurrentPrice, PriceInRange;
    var limit := limits[0];
    if !Proceeds(s, t, pc, coin) {
      StoppedCall(s, t, pc, coin, limit, whole);
    } else {
      FirstChunk(s, t, pc, coin, limit, whole);
      var first := PlanOrderbook(s, t, pc, coin, limit);
      if first.Success? && first.value.exit.Unfinished? {
        var rest := limits[1..];
        assert rest != [] by { assert Total(rest) > 0; }
        ChunksAgree(s, first.value.plan, pc, coin, rest, whole);
      }
    }
  }

  /** One call, then one covering call, is one covering call. */
  lemma FirstChunk(s: Settings, t: Plan, pc: u64, coin: u64, limit: u16, whole: u16)
    requires Proceeds(s, t, pc, coin) && t.cur < s.orderNum
    requires 0 < limit && s.orderNum - t.cur <= whole
    ensures var first := PlanOrderbook(s, t, pc, coin, limit);
      if first.Success? && first.value.exit.Unfinished? then
        && limit < s.orderNum - t.cur
        && first.value.plan.cur == t.cur + limit
        && PlanOrderbook(s, first.value.plan, pc, coin, whole) == PlanOrderbook(s, t, pc, coin, whole)
      else first == PlanOrderbook(s, t, pc, coin, whole)
  {
    CallShape(s, t, pc, coin, limit);
    CallShape(s, t, pc, coin, whole);
    var begun, cur := Begun(s, t, pc, coin), PriceOf(s, t, pc, coin);
    SomeThenAll(s, begun, limit, whole, cur);
    var first := PlanSome(s, begun, limit, cur);
    if first.Success? && first.value.exit.Unfinished? {
      SomeFrame(s, begun, limit, cur);
      CallShape(s, first.value.plan, pc, coin, whole);
    }
  }

  lemma SomeFrame(s: Settings, t: Plan, limit: u16, cur: u64)
    requires t.cur < s.orderNum && PlanSome(s, t, limit, cur).Success?
    ensures var c := PlanSome(s, t, limit, cur).value;
      && c.plan.targetX == t.targetX && c.plan.targetY == t.targetY
      && c.plan.cur == ChunkEnd(s, t.cur, limit)
      && (c.exit.Finished? <==> s.orderNum - t.cur <= limit)
      && !c.exit.Abandoned?
  {
    hide MakeQuotes, PlanRange;
    RangeFrame(s, MakeQuotes(s, cur).value, t.cur, ChunkEnd(s, t.cur, limit), t);
  }

  lemma SomeThenAll(s: Settings, t: Plan, limit: u16, whole: u16, cur: u64)
    requires t.cur < s.orderNum && 0 < limit && s.orderNum - t.cur <= whole
    ensures var first := PlanSome(s, t, limit, cur);
      if first.Success? && first.value.exit.Unfinished? then
        PlanSome(s, first.value.plan, whole, cur) == PlanSome(s, t, whole, cur)
      else first == PlanSome(s, t, whole, cur)
  {
    hide MakeQuotes, PlanRange;
    var first := PlanSome(s, t, limit, cur);
    var q := MakeQuotes(s, cur);
    if first.Success? {
      SomeFrame(s, t, limit, cur);
      var end := ChunkEnd(s, t.cur, limit);
      RangeSplit(s, q.value, t.cur, end, s.orderNum, t);
    } else if q.Success? {
      RangeSplit(s, q.value, t.cur, ChunkEnd(s, t.cur, limit), s.orderNum, t);
    }
  }

  /** Both totals in the common base, rounded down. */
  predicate IsSurvey(s: Settings, pc: nat, coin: nat, x: nat, y: nat) {
    && IsReading(x, pc, Pow10(s.scale.pcDecimals), s.scale.sysDecimalValue)
    && IsReading(y, coin, Pow10(s.scale.coinDecimals), s.scale.sysDecimalValue)
  }

  lemma SurveyIs(s: Settings, pc: u64, coin: u64, x: nat, y: nat)
    requires Survey(s, pc, coin).Success?
    ensures IsSurvey(s, pc, coin, x, y) <==> Survey(s, pc, coin).value == (x, y)
  {
    var (a, b) := Survey(s, pc, coin).value;
    ReadingIs(pc, s.scale.pcDecimals, s.scale.sysDecimalValue);
    ReadingIs(coin, s.scale.coinDecimals, s.scale.sysDecimalValue);
    hide Normalize, Pow10, IsFloor;
    if IsSurvey(s, pc, coin, x, y) {
      FloorUnique(x, a, pc * s.scale.sysDecimalValue, Pow10(s.scale.pcDecimals));
      FloorUnique(y, b, coin * s.scale.sysDecimalValue, Pow10(s.scale.coinDecimals));
    }
  }

  /** The price of the pool and the range it may be planned in. */
  predicate Plannable(s: Settings, t: Plan, x: nat, y: nat, cur: nat) {
    && (t.cur == 0 || (x == t.targetX && y == t.targetY))
    && s.scale.pcLotSize * s.minMultiplier <= cur <= s.scale.pcLotSize * s.maxMultiplier
  }

  /** What a call that succeeds does with the pool it sees: a fresh plan records its readings,
      a pool that moved or whose price is out of range abandons the plan as it stands, and
      otherwise the plan advances by the limit and is finished when it is whole. */
  lemma CallIs(s: Settings, t: Plan, pc: u64, coin: u64, limit: u16, x: nat, y: nat, cur: nat)
    requires 0 < s.orderNum && t.cur < s.orderNum
    requires IsSurvey(s, pc, coin, x, y) && IsFloor(cur, x * s.scale.sysDecimalValue, y)
    requires PlanOrderbook(s, t, pc, coin, limit).Success?
    ensures var c := PlanOrderbook(s, t, pc, coin, limit).value;
      && 0 < x && 0 < y
      && (if t.cur == 0 then c.plan.targetX == x && c.plan.targetY == y
          else c.plan.targetX == t.targetX && c.plan.targetY == t.targetY)
      && (c.exit.Abandoned? <==> !Plannable(s, t, x, y, cur))
      && (c.exit.Abandoned? ==> c.plan.cur == t.cur && c.plan.buys == t.buys && c.plan.sells == t.sells)
      && (!c.exit.Abandoned? ==>
            && c.plan.cur == (if t.cur + limit < s.orderNum then t.cur + limit else s.orderNum)
            && (c.exit.Finished? <==> c.plan.cur == s.orderNum))
  {
    SurveyIs(s, pc, coin, x, y);
    if CurrentPrice(s, x, y).Success? {
      PriceIs(s, x, y);
      FloorUnique(cur, CurrentPrice(s, x, y).value, x * s.scale.sysDecimalValue, y);
    }
    hide PlanSome, Survey, CurrentPrice, IsSurvey, IsFloor;
    if Proceeds(s, t, pc, coin) {
      CallShape(s, t, pc, coin, limit);
      SomeFrame(s, Begun(s, t, pc, coin), limit, cur);
    }
  }

  // ---- Every reachable plan ----

  /** `t` is what one uninterrupted pass would have reached from `start`. */
  ghost predicate PassFrom(s: Settings, t: Plan, start: Plan) {
    && 0 < t.cur <= s.orderNum
    && start.cur == 0 && start == Begin(start, t.targetX, t.targetY)
    && t.targetX != 0 && t.targetY != 0
    && CurrentPrice(s, t.targetX, t.targetY).Success?
    && var cur := CurrentPrice(s, t.targetX, t.targetY).value;
    && PriceInRange(s, cur)
    && MakeQuotes(s, cur).Success?
    && PlanRange(s, MakeQuotes(s, cur).value, 0, t.cur, start) == Success(t)
  }

  ghost predicate PlanInv(s: Settings, t: Plan) {
    t.cur > 0 ==> exists start :: PassFrom(s, t, start)
  }

  /** Every call, whatever the pool then holds and whatever its limit, leaves a plan
      that one pass over the recorded pool would have made. */
  lemma CallKeepsPlan(s: Settings, t: Plan, pc: u64, coin: u64, limit: u16)
    requires 0 < s.orderNum && PlanInv(s, t)
    requires PlanOrderbook(s, t, pc, coin, limit).Success?
    ensures var c := PlanOrderbook(s, t, pc, coin, limit).value;
      && PlanInv(s, c.plan)
      && t.cur <= c.plan.cur <= s.orderNum
      && (c.exit.Finished? ==> c.plan.cur == s.orderNum)
      && (c.exit.Unfinished? ==> c.plan.cur < s.orderNum && c.plan.cur == t.cur + limit)
  {
    if t.cur > 0 {
      var start :| PassFrom(s, t, start);
      assert t.cur <= s.orderNum;
    }
    if Proceeds(s, t, pc, coin) {
      CallShape(s, t, pc, coin, limit);
      SomeFrame(s, Begun(s, t, pc, coin), limit, PriceOf(s, t, pc, coin));
      if limit > 0 {
        SomeExtendsPass(s, t, pc, coin, limit);
      } else {
        hide MakeQuotes, CurrentPrice, Survey, PriceInRange;
      }
    } else {
      StoppedCall(s, t, pc, coin, limit, limit);
      hide PlanOrderbook, PlanRange, MakeQuotes, CurrentPrice, Survey, PriceInRange;
    }
  }

  lemma SomeExtendsPass(s: Settings, t: Plan, pc: u64, coin: u64, limit: u16)
    requires PlanInv(s, t) && Proceeds(s, t, pc, coin) && t.cur <= s.orderNum && limit > 0
    requires PlanSome(s, Begun(s, t, pc, coin), limit, PriceOf(s, t, pc, coin)).Success?
    ensures PlanInv(s, PlanSome(s, Begun(s, t, pc, coin), limit, PriceOf(s, t, pc, coin)).value.plan)
  {
    var begun, cur := Begun(s, t, pc, coin), PriceOf(s, t, pc, coin);
    var start := begun;
    if t.cur > 0 {
      start :| PassFrom(s, t, start);
    }
    var q := MakeQuotes(s, cur).value;
    var end := ChunkEnd(s, t.cur, limit);
    SomeFrame(s, begun, limit, cur);
    var r := PlanSome(s, begun, limit, cur).value.plan;
    RangeSplit(s, q, 0, t.cur, end, start);
    hide MakeQuotes, CurrentPrice, PriceInRange;
    assert PassFrom(s, r, start);
  }

  /** The pools that filling the bids in order runs through, from the recorded one to the
      one the plan holds; every bid meets the curve, at its full size, in its own. */
  ghost predicate BidPath(s: Settings, t: Plan, path: seq<Reserves>)
    requires t.cur <= 50
  {
    && |path| == t.cur + 1
    && path[0] == Reserves(t.targetX, t.targetY) && path[t.cur] == BidSide(t)
    && forall i :: 0 <= i < t.cur ==> GoodBid(s, t.buys[i], path[i], path[i + 1])
  }

  ghost predicate AskPath(s: Settings, t: Plan, path: seq<Reserves>)
    requires t.cur <= 50
  {
    && |path| == t.cur + 1
    && path[0] == Reserves(t.targetX, t.targetY) && path[t.cur] == AskSide(t)
    && forall i :: 0 <= i < t.cur ==> GoodAsk(s, t.sells[i], path[i], path[i + 1])
  }

  predicate Uncrossed(s: Settings, t: Plan) {
    s.Spread() > 0 ==>
      forall i, j :: 0 <= i < t.cur <= 50 && 0 <= j < t.cur ==> t.buys[i].price < t.sells[j].price
  }

  /** The price the ladder stands around: what a coin of the recorded pool is worth in the
      common base, rounded down, within the multiples of a tick that are allowed. */
  predicate IsLadderPrice(s: Settings, t: Plan, cur: nat) {
    && IsFloor(cur, t.targetX * s.scale.sysDecimalValue, t.targetY)
    && s.scale.pcLotSize * s.minMultiplier <= cur <= s.scale.pcLotSize * s.maxMultiplier
  }

  /** A ladder planned at one price: the price of the recorded pool stands between whole-tick
      bids and asks of whole lots, each where its distance or the override puts it, no bid
      meets an ask once there is a separation, every order meets the curve at its full size
      in the pool the nearer ones leave, and filling all bids does not lower the product. */
  ghost predicate SoundLadder(s: Settings, t: Plan) {
    && 0 < t.cur <= s.orderNum
    && (exists cur, q :: IsLadderPrice(s, t, cur) && TightQuotes(s, cur, q) && LadderOk(s, q, t, t.cur))
    && Uncrossed(s, t)
    && (exists path :: BidPath(s, t, path))
    && (exists path :: AskPath(s, t, path))
    && t.xBuy * t.yBuy >= t.targetX * t.targetY && t.ySell <= t.targetY
  }

  lemma PriceIs(s: Settings, x: u128, y: u128)
    requires y != 0 && CurrentPrice(s, x, y).Success?
    ensures IsFloor(CurrentPrice(s, x, y).value, x * s.scale.sysDecimalValue, y)
  {
    FloorIs(x * s.scale.sysDecimalValue, y);
  }

  /** The planned part of any reachable plan is a sound ladder. */
  lemma ReachablePlan(s: Settings, t: Plan)
    requires DepthInRange(s) && PlanInv(s, t) && t.cur > 0
    ensures SoundLadder(s, t)
  {
    var start :| PassFrom(s, t, start);
    var cur := CurrentPrice(s, t.targetX, t.targetY).value;
    var q := MakeQuotes(s, cur).value;
    QuotesBracketPrice(s, cur);
    MarginsAreTight(s, cur);
    PriceIs(s, t.targetX, t.targetY);
    assert IsLadderPrice(s, t, cur);
    hide MakeQuotes, CurrentPrice, PriceInRange, IsLadderPrice, TightQuotes;
    RangeIsOk(s, q, 0, t.cur, start);
    RangeKeepsCurve(s, q, 0, t.cur, start);
    PassOnCurve(s, q, start, t);
    OkIsUncrossed(s, q, t);
    hide PlanRange, LadderOk, Uncrossed, BidPath, AskPath;
  }

  lemma PassOnCurve(s: Settings, q: Quotes, start: Plan, t: Plan)
    requires t.cur <= s.orderNum && PlanRange(s, q, 0, t.cur, start) == Success(t)
    requires start == Begin(start, t.targetX, t.targetY)
    ensures exists path :: BidPath(s, t, path)
    ensures exists path :: AskPath(s, t, path)
  {
    hide PlanRange, GoodBid, GoodAsk;
    forall i: nat | i <= t.cur ensures PlanRange(s, q, 0, i, start).Success? {
      RangeSplit(s, q, 0, i, t.cur, start);
    }
    var plans := seq(t.cur + 1, (i: nat) requires i <= t.cur => PlanRange(s, q, 0, i, start).value);
    var bids := seq(t.cur + 1, (i: nat) requires i <= t.cur => BidSide(plans[i]));
    var asks := seq(t.cur + 1, (i: nat) requires i <= t.cur => AskSide(plans[i]));
    assert plans[0] == start by { EmptyRange(s, q, 0, start); }
    forall i: nat | i < t.cur
      ensures GoodBid(s, t.buys[i], bids[i], bids[i + 1])
      ensures GoodAsk(s, t.sells[i], asks[i], asks[i + 1])
    {
      EveryOrderOnCurve(s, q, 0, i, t.cur, start);
    }
    assert BidPath(s, t, bids);
    assert AskPath(s, t, asks);
  }

  lemma EmptyRange(s: Settings, q: Quotes, i: nat, t: Plan)
    requires i <= s.orderNum
    ensures PlanRange(s, q, i, i, t) == Success(t)
  {
  }

  lemma OkIsUncrossed(s: Settings, q: Quotes, t: Plan)
    requires t.cur <= 50 && LadderOk(s, q, t, t.cur)
    ensures Uncrossed(s, t)
  {
    forall i, j | 0 <= i < t.cur && 0 <= j < t.cur && s.Spread() > 0
      ensures t.buys[i].price < t.sells[j].price
    {
      assert RungOk(s, q, i, Nearer(t.buys, i), t.buys[i], t.sells[i]);
      assert RungOk(s, q, j, Nearer(t.buys, j), t.buys[j], t.sells[j]);
      hide LadderOk, BidTarget, AskTarget, WholeLots;
    }
  }

  /** Without any separation the nearest ask can sit at the current price itself: an ask,
      moved or not, clears the price exactly when there is a separation, a grid distance,
      a tick to round up to, or an override that asks for more. */
  lemma AskClearsPriceIff(s: Settings, q: Quotes, i: nat, nearer: nat, buy: Order, sell: Order)
    requires i < s.orderNum && DepthInRange(s) && MakeQuotes(s, q.cur) == Success(q)
    requires 0 < q.cur && RungOk(s, q, i, nearer, buy, sell)
    ensures q.cur < sell.price <==>
      || s.Spread() > 0
      || i > 0
      || q.cur % s.scale.pcLotSize != 0
      || (s.OverridesLast(i) && LastAsk(s, q) > q.cur)
  {
    QuotesBracketPrice(s, q.cur);
    hide MakeQuotes, WholeLots, TicksUp, BidTarget, LastAsk;
    if i > 0 {
      FibMono(0, i);
      MulMono(1, Fib(i), q.grid);
    } else {
      assert q.grid * Fib(0) == 0;
    }
    hide Fib;
    CeilReaches(AskTarget(s, q, i), q.cur, s.scale.pcLotSize);
  }

  lemma CeilReaches(n: nat, v: nat, lot: nat)
    requires lot > 0 && v <= n
    ensures v < TicksUp(n, lot) <==> v < n || v % lot != 0
  {
    hide Ceil;
    if v == n {
      if v % lot == 0 {
        DivBounds(v, lot);
        CeilUnique(v, lot, v / lot);
      } else if Ceil(v, lot) * lot == v {
        ModOfMultiple(Ceil(v, lot), lot);
      }
    }
  }
}
