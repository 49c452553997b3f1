/** Which orders a call places: what each costs in the exchange's units, which rungs can be
    funded, and how the round advances from one to the next. */
module PlacedOrders {
  import opened Checked
  import opened Arith
  import opened Decimals
  import opened Planner
  import opened Placement

  // ---- The exchange's units ----

  /** An order in whole ticks and lots of the exchange, rounded down. */
  predicate IsConverted(s: Scale, o: Order, price: nat, qty: nat) {
    && IsFloor(price, o.price, s.pcLotSize)
    && IsFloor(qty, o.vol * Pow10(s.coinDecimals), s.coinLotSize * s.sysDecimalValue)
  }

  /** The pc lot in native units, rounded down. */
  predicate IsPcLot(s: Scale, lot: nat) {
    IsFloor(lot, (s.pcLotSize * s.coinLotSize) * Pow10(s.pcDecimals), s.sysDecimalValue * Pow10(s.coinDecimals))
  }

  /** What an order locks up: a bid its price in pc lots for each of its lots, an ask its
      lots of coin. */
  ghost predicate IsBidCost(s: Scale, o: Order, cost: nat) {
    exists price: nat, qty: nat, lot: nat ::
      IsConverted(s, o, price, qty) && IsPcLot(s, lot) && cost == (qty * price) * lot
  }

  ghost predicate IsAskCost(s: Scale, o: Order, cost: nat) {
    exists price: nat, qty: nat :: IsConverted(s, o, price, qty) && cost == qty * s.coinLotSize
  }

  /** An order without a whole tick or lot is skipped. */
  ghost predicate IsVoid(s: Scale, o: Order) {
    exists price: nat, qty: nat :: IsConverted(s, o, price, qty) && (price == 0 || qty == 0)
  }

  lemma ConvertedUnique(s: Scale, o: Order, price: nat, qty: nat, price': nat, qty': nat)
    requires IsConverted(s, o, price, qty) && IsConverted(s, o, price', qty')
    ensures price == price' && qty == qty'
  {
    FloorUnique(price, price', o.price, s.pcLotSize);
    FloorUnique(qty, qty', o.vol * Pow10(s.coinDecimals), s.coinLotSize * s.sysDecimalValue);
  }

  lemma PcLotUnique(s: Scale, a: nat, b: nat)
    requires IsPcLot(s, a) && IsPcLot(s, b)
    ensures a == b
  {
    FloorUnique(a, b, (s.pcLotSize * s.coinLotSize) * Pow10(s.pcDecimals), s.sysDecimalValue * Pow10(s.coinDecimals));
  }

  lemma BidCostUnique(s: Scale, o: Order, a: nat, b: nat)
    requires IsBidCost(s, o, a) && IsBidCost(s, o, b)
    ensures a == b
  {
    hide IsConverted, IsPcLot;
    var p: nat, q: nat, lot: nat :| IsConverted(s, o, p, q) && IsPcLot(s, lot) && a == (q * p) * lot;
    var p': nat, q': nat, lot': nat :| IsConverted(s, o, p', q') && IsPcLot(s, lot') && b == (q' * p') * lot';
    ConvertedUnique(s, o, p, q, p', q');
    PcLotUnique(s, lot, lot');
  }

  lemma AskCostUnique(s: Scale, o: Order, a: nat, b: nat)
    requires IsAskCost(s, o, a) && IsAskCost(s, o, b)
    ensures a == b
  {
    hide IsConverted;
    var p: nat, q: nat :| IsConverted(s, o, p, q) && a == q * s.coinLotSize;
    var p': nat, q': nat :| IsConverted(s, o, p', q') && b == q' * s.coinLotSize;
    ConvertedUnique(s, o, p, q, p', q');
  }

  lemma Converts(s: Scale, o: Order)
    requires PriceOut(o.price, s.pcLotSize).Success? && VolOut(s, o.vol).Success?
    ensures IsConverted(s, o, PriceOut(o.price, s.pcLotSize).value, VolOut(s, o.vol).value)
  {
    FloorIs(o.price, s.pcLotSize);
    FloorIs(o.vol * Pow10(s.coinDecimals), s.coinLotSize * s.sysDecimalValue);
    hide Pow10, IsFloor;
  }

  lemma PcLotIs(s: Scale)
    requires PcLotOut(s).Success?
    ensures IsPcLot(s, PcLotOut(s).value)
  {
    FloorIs((s.pcLotSize * s.coinLotSize) * Pow10(s.pcDecimals), s.sysDecimalValue * Pow10(s.coinDecimals));
    hide Pow10, IsFloor;
  }

  // ---- One order ----

  /** A side takes an id for an order that is not void, and the rest of the desk stays. */
  ghost predicate PlacesBid(s: Scale, o: Order, a: Desk, b: Desk) {
    if IsVoid(s, o) then b == a
    else b == a.(buy := b.buy, clientId := b.clientId) && TakesId(a.buy, a.clientId, b.buy, b.clientId)
  }

  ghost predicate PlacesAsk(s: Scale, o: Order, a: Desk, b: Desk) {
    if IsVoid(s, o) then b == a
    else b == a.(sell := b.sell, clientId := b.clientId) && TakesId(a.sell, a.clientId, b.sell, b.clientId)
  }

  ghost predicate FundsBid(s: Scale, o: Order, available: u64) {
    exists cost: nat :: IsBidCost(s, o, cost) && cost <= available
  }

  ghost predicate FundsAsk(s: Scale, o: Order, available: u64) {
    exists cost: nat :: IsAskCost(s, o, cost) && cost <= available
  }

  lemma VoidIs(s: Scale, o: Order, price: nat, qty: nat)
    requires IsConverted(s, o, price, qty)
    ensures IsVoid(s, o) <==> price == 0 || qty == 0
  {
    hide IsConverted;
    if IsVoid(s, o) {
      var p: nat, q: nat :| IsConverted(s, o, p, q) && (p == 0 || q == 0);
      ConvertedUnique(s, o, price, qty, p, q);
    }
  }

  /** A bid is funded exactly when its cost is available, and then placed unless void. */
  lemma PlaceBuyIs(s: Scale, o: Order, desk: Desk, available: u64)
    requires PlaceBuy(s, o, desk, available).Success?
    ensures var p := PlaceBuy(s, o, desk, available).value;
      && (p.funded <==> FundsBid(s, o, available))
      && if p.funded then PlacesBid(s, o, desk, p.desk) else p.desk == desk
  {
    hide PriceOut, VolOut, PcLotOut, TakeId, TakesId, IsConverted, IsPcLot, IsVoid;
    var price, qty := PriceOut(o.price, s.pcLotSize).value, VolOut(s, o.vol).value;
    var cost := BuyCost(s, price, qty).value;
    Converts(s, o);
    PcLotIs(s);
    VoidIs(s, o, price, qty);
    assert IsBidCost(s, o, cost);
    BidFunded(s, o, cost, available);
    hide IsBidCost, FundsBid, BuyCost;
    if TakeId(desk.buy, desk.clientId).Success? {
      TakeIdReuses(desk.buy, desk.clientId);
    }
  }

  lemma BidFunded(s: Scale, o: Order, cost: nat, available: u64)
    requires IsBidCost(s, o, cost)
    ensures FundsBid(s, o, available) <==> cost <= available
  {
    hide IsBidCost;
    if FundsBid(s, o, available) {
      var c: nat :| IsBidCost(s, o, c) && c <= available;
      BidCostUnique(s, o, c, cost);
    }
  }

  lemma AskFunded(s: Scale, o: Order, cost: nat, available: u64)
    requires IsAskCost(s, o, cost)
    ensures FundsAsk(s, o, available) <==> cost <= available
  {
    hide IsAskCost;
    if FundsAsk(s, o, available) {
      var c: nat :| IsAskCost(s, o, c) && c <= available;
      AskCostUnique(s, o, c, cost);
    }
  }

  lemma PlaceSellIs(s: Scale, o: Order, desk: Desk, available: u64)
    requires PlaceSell(s, o, desk, available).Success?
    ensures var p := PlaceSell(s, o, desk, available).value;
      && (p.funded <==> FundsAsk(s, o, available))
      && if p.funded then PlacesAsk(s, o, desk, p.desk) else p.desk == desk
  {
    hide PriceOut, VolOut, TakeId, TakesId, IsConverted, IsVoid;
    var price, qty := PriceOut(o.price, s.pcLotSize).value, VolOut(s, o.vol).value;
    Converts(s, o);
    VoidIs(s, o, price, qty);
    var cost := qty * s.coinLotSize;
    assert IsAskCost(s, o, cost);
    AskFunded(s, o, cost, available);
    hide IsAskCost, FundsAsk;
    if TakeId(desk.sell, desk.clientId).Success? {
      TakeIdReuses(desk.sell, desk.clientId);
    }
  }

  // ---- A rung, and a range of them ----

  /** The bid, then the ask, then the cursor. */
  ghost predicate PlacesRung(s: Scale, buy: Order, sell: Order, a: Desk, b: Desk) {
    exists mid: Desk ::
      PlacesBid(s, buy, a, mid) && PlacesAsk(s, sell, mid, b.(cur := a.cur)) && b.cur == a.cur + 1
  }

  ghost predicate FundsRung(s: Scale, buy: Order, sell: Order, f: Funds) {
    FundsBid(s, buy, f.pc) && FundsAsk(s, sell, f.coin)
  }

  /** A rung short of funds stops the call: before its bid, or after it for want of coins. */
  ghost predicate StopsShort(s: Scale, buy: Order, f: Funds, a: Desk, b: Desk) {
    if FundsBid(s, buy, f.pc) then PlacesBid(s, buy, a, b) else b == a
  }

  lemma PlacePairIs(s: Scale, buy: Order, sell: Order, desk: Desk, f: Funds)
    requires PlacePair(s, buy, sell, desk, f).Success?
    ensures var p := PlacePair(s, buy, sell, desk, f).value;
      && (p.funded <==> FundsRung(s, buy, sell, f))
      && (if p.funded then PlacesRung(s, buy, sell, desk, p.desk) else StopsShort(s, buy, f, desk, p.desk))
  {
    hide PlaceBuy, PlaceSell, FundsBid, FundsAsk, PlacesBid, PlacesAsk;
    PlaceBuyIs(s, buy, desk, f.pc);
    var b := PlaceBuy(s, buy, desk, f.pc).value;
    if b.funded {
      PlaceSellIs(s, sell, b.desk, f.coin);
      CursorsAgree(s, buy, desk, b.desk);
      if PlaceSell(s, sell, b.desk, f.coin).value.funded {
        CursorStays(s, sell, b.desk, PlaceSell(s, sell, b.desk, f.coin).value.desk);
        var after := PlaceSell(s, sell, b.desk, f.coin).value.desk;
        assert PlacePair(s, buy, sell, desk, f).value.desk.(cur := desk.cur) == after;
      }
    }
  }

  lemma CursorsAgree(s: Scale, o: Order, a: Desk, b: Desk)
    requires PlacesBid(s, o, a, b)
    ensures a.cur == b.cur
  {
  }

  lemma CursorStays(s: Scale, o: Order, a: Desk, b: Desk)
    requires PlacesAsk(s, o, a, b)
    ensures a.cur == b.cur
  {
  }

  /** The desks a range of rungs runs through. */
  ghost predicate RungPath(s: Scale, plan: Plan, from: nat, end: nat, path: seq<Desk>)
    requires from <= end <= 50
  {
    && |path| == end - from + 1
    && forall i :: from <= i < end ==> PlacesRung(s, plan.buys[i], plan.sells[i], path[i - from], path[i - from + 1])
  }

  /** Every rung can be funded from what is seen when it is reached. */
  ghost predicate FundsRange(s: Scale, plan: Plan, from: nat, end: nat, funds: seq<Funds>)
    requires from <= end <= 50
  {
    && end - from <= |funds|
    && forall i :: from <= i < end ==> FundsRung(s, plan.buys[i], plan.sells[i], funds[i - from])
  }

  /** A call is funded exactly when each of its rungs is.  It places them one after another,
      each side under its own ids, as far as `reached`: the end, or the first rung short of
      funds. */
  lemma {:induction false} PlaceRangeIs(
    s: Scale, plan: Plan, from: nat, end: nat, desk: Desk, funds: seq<Funds>)
    returns (path: seq<Desk>, reached: nat)
    requires from <= end <= 50 && PlaceRange(s, plan, from, end, desk, funds).Success?
    ensures from <= reached <= end
    ensures RungPath(s, plan, from, reached, path) && path[0] == desk
    ensures var p := PlaceRange(s, plan, from, end, desk, funds).value;
      && (p.funded <==> FundsRange(s, plan, from, end, funds))
      && (p.funded <==> reached == end)
      && (p.funded ==> p.desk == path[end - from])
      && (!p.funded ==>
            && reached - from < |funds|
            && !FundsRung(s, plan.buys[reached], plan.sells[reached], funds[reached - from])
            && StopsShort(s, plan.buys[reached], funds[reached - from], path[reached - from], p.desk))
    decreases end - from
  {
    hide PlacePair, PlacesRung, FundsRung, StopsShort;
    path, reached := [desk], from;
    if from < end {
      PlacePairIs(s, plan.buys[from], plan.sells[from], desk, funds[0]);
      var p := PlacePair(s, plan.buys[from], plan.sells[from], desk, funds[0]).value;
      FundsLater(s, plan, from, end, funds);
      if p.funded {
        var rest;
        rest, reached := PlaceRangeIs(s, plan, from + 1, end, p.desk, funds[1..]);
        path := [desk] + rest;
      }
    }
  }

  lemma FundsLater(s: Scale, plan: Plan, from: nat, end: nat, funds: seq<Funds>)
    requires from < end <= 50 && funds != []
    ensures FundsRange(s, plan, from, end, funds) <==>
      FundsRung(s, plan.buys[from], plan.sells[from], funds[0]) && FundsRange(s, plan, from + 1, end, funds[1..])
  {
    hide FundsRung;
  }
}
