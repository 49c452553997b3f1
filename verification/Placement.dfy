/** Placing a planned ladder on the exchange: which client id each order takes, and
    why no two orders of a round share one. */
module Placement {
  import opened Checked
  import opened Arith
  import opened Decimals
  import opened Planner

  type Ids = s: seq<u64> | |s| == 10 witness seq(10, _ => 0)

  /** One side of a round: how many orders it has placed, under which client ids, and
      the live orders still to be replaced. */
  datatype Side = Side(valid: u64, replaced: Ids, queue: seq<u64>)

  /** A round in progress: the next rung, the client-id counter, and both sides. */
  datatype Desk = Desk(cur: u64, clientId: u64, buy: Side, sell: Side)

  /** What can be spent when a rung is reached. */
  datatype Funds = Funds(pc: u64, coin: u64)

  datatype Placed = Placed(desk: Desk, funded: bool)

  // ---- Client ids ----

  /** The counter wraps and skips zero. */
  function NextClientId(clientId: u64): (id: u64)
    ensures id != 0
    ensures clientId < U64_LIMIT - 1 ==> id == clientId + 1
  {
    if clientId == U64_LIMIT - 1 then 1 else clientId + 1
  }

  /** Reuse the last live order's id for the first placement of a side, the first for
      any later one, and draw a new id once none is left. */
  function TakeId(side: Side, clientId: u64): Result<(Side, u64)> {
    if side.valid >= 10 then Failure(IndexOutOfBounds)
    else
      if side.queue == [] then
        var id := NextClientId(clientId);
        Success((Side(side.valid + 1, side.replaced[side.valid := id], []), id))
      else
        var last := |side.queue| - 1;
        if side.valid == 0 then
          Success((Side(1, side.replaced[0 := side.queue[last]], side.queue[..last]), clientId))
        else
          Success((Side(side.valid + 1, side.replaced[side.valid := side.queue[0]], side.queue[1..]), clientId))
  }

  // ---- One order ----

  function PriceOut(price: u64, pcLot: u64): Result<u64> {
    var p :- Div(price, pcLot);
    ToU64(p)
  }

  function VolOut(s: Scale, vol: u64): Result<u64> {
    var unit :- PowU128(s.coinDecimals);
    var scaled :- ToU128(vol * unit);
    var lot :- ToU128(s.coinLotSize * s.sysDecimalValue);
    var qty :- Div(scaled, lot);
    ToU64(qty)
  }

  function PcLotOut(s: Scale): Result<u64> {
    var a :- ToU128(s.pcLotSize * s.coinLotSize);
    var pcUnit :- PowU128(s.pcDecimals);
    var numerator :- ToU128(a * pcUnit);
    var coinUnit :- PowU128(s.coinDecimals);
    var denominator :- ToU128(s.sysDecimalValue * coinUnit);
    var lot :- Div(numerator, denominator);
    ToU64(lot)
  }

  function BuyCost(s: Scale, price: u64, qty: u64): Result<u64> {
    var lot :- PcLotOut(s);
    var lots :- ToU64(qty * price);
    ToU64(lots * lot)
  }

  /** A whole-tick price loses nothing in the exchange's units.  A nonzero volume of whole
      lots loses nothing exactly when the coin lot itself reads without a remainder, as it
      does on every whole scale; it is then worth its native volume. */
  lemma ConversionIsExactIff(s: Scale, o: Order)
    requires 0 < s.pcLotSize && o.price % s.pcLotSize == 0
    requires 0 < Normalized(s.coinLotSize, Pow10(s.coinDecimals), s.sysDecimalValue)
    requires o.vol % Normalized(s.coinLotSize, Pow10(s.coinDecimals), s.sysDecimalValue) == 0
    requires PriceOut(o.price, s.pcLotSize).Success? && VolOut(s, o.vol).Success?
    ensures PriceOut(o.price, s.pcLotSize).value * s.pcLotSize == o.price
    ensures var unit, sys := Pow10(s.coinDecimals), s.sysDecimalValue;
      var qty, exact := VolOut(s, o.vol).value, (s.coinLotSize * sys) % unit == 0;
      && (qty * Normalized(s.coinLotSize, unit, sys) == o.vol <==> o.vol == 0 || exact)
      && (exact ==> qty * s.coinLotSize == Restored(o.vol, unit, sys))
  {
    DivBounds(o.price, s.pcLotSize);
    VolumeIsExactIff(o.vol, s.coinLotSize, s.sysDecimalValue, Pow10(s.coinDecimals));
    hide Restored, Normalized, Pow10;
  }

  lemma VolumeIsExactIff(vol: nat, coinLot: nat, sys: nat, unit: nat)
    requires 0 < unit && 0 < sys && 0 < coinLot * sys
    requires 0 < Normalized(coinLot, unit, sys) && vol % Normalized(coinLot, unit, sys) == 0
    ensures var q := (vol * unit) / (coinLot * sys);
      && (q * Normalized(coinLot, unit, sys) == vol <==> vol == 0 || (coinLot * sys) % unit == 0)
      && ((coinLot * sys) % unit == 0 ==> q * coinLot == Restored(vol, unit, sys))
  {
    var lot, size := Normalized(coinLot, unit, sys), coinLot * sys;
    var k := vol / lot;
    DivBounds(vol, lot);
    DivBounds(size, unit);
    assert size == lot * unit + size % unit;
    assert (k * lot) * unit == k * (lot * unit);
    hide Normalized;
    if size % unit == 0 {
      DivExact(k, size);
      assert k * (coinLot * sys) == (k * coinLot) * sys;
      DivExact(k * coinLot, sys);
    } else if k > 0 {
      MulMono(lot * unit + 1, size, k);
      Distribute(lot * unit, 1, k);
      DivBelow(k * (lot * unit), size, k);
      var q := (vol * unit) / size;
      MulMono(q + 1, k, lot);
      Distribute(q, 1, lot);
    } else {
      assert vol == 0;
      DivAtMost(0, size, 0);
    }
  }

  /** Place a bid, unless it is void or cannot be funded.  The exchange refuses a bid
      without a cost. */
  function PlaceBuy(s: Scale, o: Order, desk: Desk, available: u64): Result<Placed> {
    var price :- PriceOut(o.price, s.pcLotSize);
    var qty :- VolOut(s, o.vol);
    var cost :- BuyCost(s, price, qty);
    if cost > available then Success(Placed(desk, false))
    else if price != 0 && qty != 0 then
      var (side, clientId) :- TakeId(desk.buy, desk.clientId);
      :- Need(cost != 0, DexRejected);
      Success(Placed(desk.(buy := side, clientId := clientId), true))
    else Success(Placed(desk, true))
  }

  function PlaceSell(s: Scale, o: Order, desk: Desk, available: u64): Result<Placed> {
    var price :- PriceOut(o.price, s.pcLotSize);
    var qty :- VolOut(s, o.vol);
    var cost :- ToU64(qty * s.coinLotSize);
    if cost > available then Success(Placed(desk, false))
    else if price != 0 && qty != 0 then
      var (side, clientId) :- TakeId(desk.sell, desk.clientId);
      Success(Placed(desk.(sell := side, clientId := clientId), true))
    else Success(Placed(desk, true))
  }

  function PlacePair(s: Scale, buy: Order, sell: Order, desk: Desk, funds: Funds): Result<Placed> {
    var b :- PlaceBuy(s, buy, desk, funds.pc);
    if !b.funded then Success(b)
    else
      var a :- PlaceSell(s, sell, b.desk, funds.coin);
      if !a.funded then Success(a)
      else
        var cur :- ToU64(a.desk.cur + 1);
        Success(Placed(a.desk.(cur := cur), true))
  }

  /** The exchange may refuse any order, and then `funds` ends there. */
  function PlaceRange(s: Scale, plan: Plan, from: nat, end: nat, desk: Desk, funds: seq<Funds>): Result<Placed>
    requires end <= 50
    decreases if from < end then end - from else 0
  {
    hide PlacePair;
    if from >= end then Success(Placed(desk, true))
    else
      :- Need(funds != [], DexRejected);
      var p :- PlacePair(s, plan.buys[from], plan.sells[from], desk, funds[0]);
      if p.funded then PlaceRange(s, plan, from + 1, end, p.desk, funds[1..]) else Success(p)
  }

  // ---- Distinct ids ----

  predicate Distinct(ids: seq<u64>) {
    forall i, j :: 0 <= i < j < |ids| ==> ids[i] != ids[j]
  }

  /** Nonzero and drawn from the counter. */
  ghost predicate Drawn(ids: seq<u64>, clientId: u64) {
    forall i :: 0 <= i < |ids| ==> 0 < ids[i] <= clientId
  }

  /** Placed ids are distinct, nonzero and drawn, and no id is both placed and waiting. */
  ghost predicate SideOk(side: Side, clientId: u64) {
    && side.valid <= 10
    && Distinct(side.replaced[..side.valid]) && Drawn(side.replaced[..side.valid], clientId)
    && Distinct(side.queue) && Drawn(side.queue, clientId)
    && forall i, j :: 0 <= i < side.valid && 0 <= j < |side.queue| ==> side.replaced[i] != side.queue[j]
  }

  lemma TakeIdKeepsSide(side: Side, clientId: u64)
    requires SideOk(side, clientId) && clientId < U64_LIMIT - 1 && TakeId(side, clientId).Success?
    ensures var (next, drawn) := TakeId(side, clientId).value;
      && SideOk(next, drawn)
      && clientId <= drawn <= clientId + 1
      && next.valid == side.valid + 1
      && next.replaced[..side.valid] == side.replaced[..side.valid]
  {
  }

  /** A side takes the next id: its oldest waiting order's, but the last one's for its first
      placement, and a new one from the counter once none waits. */
  predicate TakesId(side: Side, clientId: u64, next: Side, drawn: u64) {
    && side.valid < 10 && next.valid == side.valid + 1
    && next.replaced == side.replaced[side.valid := next.replaced[side.valid]]
    && var id := next.replaced[side.valid];
    && if side.queue == [] then
         next.queue == [] && id == drawn && drawn == if clientId == U64_LIMIT - 1 then 1 else clientId + 1
       else
         drawn == clientId && side.queue == if side.valid == 0 then next.queue + [id] else [id] + next.queue
  }

  /** A waiting live order is always reused, once, before a new id is drawn. */
  lemma TakeIdReuses(side: Side, clientId: u64)
    requires TakeId(side, clientId).Success?
    ensures side.valid < 10
    ensures var (next, drawn) := TakeId(side, clientId).value;
      var id := next.replaced[side.valid];
      && TakesId(side, clientId, next, drawn)
      && (side.queue == [] ==> next.queue == [] && id == drawn == NextClientId(clientId))
      && (side.queue != [] ==>
            drawn == clientId && multiset(side.queue) == multiset(next.queue) + multiset{id})
  {
    if side.queue != [] {
      var last := |side.queue| - 1;
      assert side.queue == side.queue[..last] + [side.queue[last]];
      assert side.queue == [side.queue[0]] + side.queue[1..];
    }
  }

  lemma DrawnMore(side: Side, clientId: u64, more: u64)
    requires SideOk(side, clientId) && clientId <= more
    ensures SideOk(side, more)
  {
  }

  ghost predicate DeskOk(desk: Desk) {
    SideOk(desk.buy, desk.clientId) && SideOk(desk.sell, desk.clientId)
  }

  /** Filled no faster than one order a rung. */
  predicate Paced(desk: Desk) {
    desk.buy.valid <= desk.cur && desk.sell.valid <= desk.cur
  }

  lemma PlaceBuyKeepsDesk(s: Scale, o: Order, desk: Desk, available: u64)
    requires DeskOk(desk) && desk.clientId < U64_LIMIT - 1 && PlaceBuy(s, o, desk, available).Success?
    ensures var d := PlaceBuy(s, o, desk, available).value.desk;
      && DeskOk(d)
      && desk.clientId <= d.clientId <= desk.clientId + 1
      && d.cur == desk.cur && d.sell == desk.sell
      && desk.buy.valid <= d.buy.valid <= desk.buy.valid + 1
  {
    hide PriceOut, VolOut, BuyCost, SideOk, TakeId;
    if TakeId(desk.buy, desk.clientId).Success? {
      TakeIdKeepsSide(desk.buy, desk.clientId);
      DrawnMore(desk.sell, desk.clientId, TakeId(desk.buy, desk.clientId).value.1);
    }
  }

  lemma PlaceSellKeepsDesk(s: Scale, o: Order, desk: Desk, available: u64)
    requires DeskOk(desk) && desk.clientId < U64_LIMIT - 1 && PlaceSell(s, o, desk, available).Success?
    ensures var d := PlaceSell(s, o, desk, available).value.desk;
      && DeskOk(d)
      && desk.clientId <= d.clientId <= desk.clientId + 1
      && d.cur == desk.cur && d.buy == desk.buy
      && desk.sell.valid <= d.sell.valid <= desk.sell.valid + 1
  {
    hide PriceOut, VolOut, SideOk, TakeId;
    if TakeId(desk.sell, desk.clientId).Success? {
      TakeIdKeepsSide(desk.sell, desk.clientId);
      DrawnMore(desk.buy, desk.clientId, TakeId(desk.sell, desk.clientId).value.1);
    }
  }

  lemma PlacePairKeepsDesk(s: Scale, buy: Order, sell: Order, desk: Desk, funds: Funds)
    requires DeskOk(desk) && desk.clientId < U64_LIMIT - 2 && PlacePair(s, buy, sell, desk, funds).Success?
    ensures var p := PlacePair(s, buy, sell, desk, funds).value;
      && DeskOk(p.desk)
      && desk.clientId <= p.desk.clientId <= desk.clientId + 2
      && p.desk.cur == (if p.funded then desk.cur + 1 else desk.cur)
      && (Paced(desk) && p.funded ==> Paced(p.desk))
  {
    hide PlaceBuy, PlaceSell, SideOk;
    var b := PlaceBuy(s, buy, desk, funds.pc).value;
    PlaceBuyKeepsDesk(s, buy, desk, funds.pc);
    if b.funded {
      PlaceSellKeepsDesk(s, sell, b.desk, funds.coin);
    }
  }

  /** A chunk of a round keeps its ids distinct, as long as the counter has room. */
  lemma {:induction false} PlaceRangeKeepsDesk(
    s: Scale, plan: Plan, from: nat, end: nat, desk: Desk, funds: seq<Funds>)
    requires from <= end <= 50 && DeskOk(desk) && desk.clientId + 2 * (end - from) < U64_LIMIT
    requires PlaceRange(s, plan, from, end, desk, funds).Success?
    ensures var p := PlaceRange(s, plan, from, end, desk, funds).value;
      && DeskOk(p.desk)
      && desk.clientId <= p.desk.clientId <= desk.clientId + 2 * (end - from)
      && desk.cur <= p.desk.cur <= desk.cur + (end - from)
      && (p.funded ==> p.desk.cur == desk.cur + (end - from) && (Paced(desk) ==> Paced(p.desk)))
    decreases end - from
  {
    hide PlacePair, DeskOk, Paced;
    if from < end {
      PlacePairKeepsDesk(s, plan.buys[from], plan.sells[from], desk, funds[0]);
      var p := PlacePair(s, plan.buys[from], plan.sells[from], desk, funds[0]).value;
      if p.funded {
        PlaceRangeKeepsDesk(s, plan, from + 1, end, p.desk, funds[1..]);
      }
    }
  }

  /** A paced round of at most ten rungs never runs past its ten id slots, whatever its
      ids; a funded call reaches its end and keeps the pace. */
  lemma {:induction false} PlaceRangeStaysInSlots(
    s: Scale, plan: Plan, from: nat, end: nat, desk: Desk, funds: seq<Funds>)
    requires from <= end <= 10 && desk.cur == from && Paced(desk)
    ensures var r := PlaceRange(s, plan, from, end, desk, funds);
      if r.Failure? then r.error != IndexOutOfBounds
      else
        && r.value.desk.buy.valid <= 10 && r.value.desk.sell.valid <= 10
        && (r.value.funded ==> r.value.desk.cur == end && Paced(r.value.desk))
    decreases end - from
  {
    hide PlacePair;
    if from < end && funds != [] {
      PlacePairStaysInSlots(s, plan.buys[from], plan.sells[from], desk, funds[0]);
      var p := PlacePair(s, plan.buys[from], plan.sells[from], desk, funds[0]);
      if p.Success? && p.value.funded {
        PlaceRangeStaysInSlots(s, plan, from + 1, end, p.value.desk, funds[1..]);
      }
    }
  }

  lemma PlacePairStaysInSlots(s: Scale, buy: Order, sell: Order, desk: Desk, funds: Funds)
    requires Paced(desk) && desk.cur < 10
    ensures var r := PlacePair(s, buy, sell, desk, funds);
      if r.Failure? then r.error != IndexOutOfBounds
      else
        && r.value.desk.buy.valid <= 10 && r.value.desk.sell.valid <= 10
        && (r.value.funded ==> r.value.desk.cur == desk.cur + 1 && Paced(r.value.desk))
  {
    hide PlaceBuy, PlaceSell;
    PlaceBuyStaysInSlots(s, buy, desk, funds.pc);
    var b := PlaceBuy(s, buy, desk, funds.pc);
    if b.Success? {
      PlaceSellStaysInSlots(s, sell, b.value.desk, funds.coin);
    }
  }

  lemma PlaceBuyStaysInSlots(s: Scale, o: Order, desk: Desk, available: u64)
    requires desk.buy.valid < 10
    ensures var r := PlaceBuy(s, o, desk, available);
      if r.Failure? then r.error != IndexOutOfBounds
      else
        && r.value.desk.buy.valid <= desk.buy.valid + 1
        && r.value.desk.sell == desk.sell
        && r.value.desk.cur == desk.cur
  {
  }

  lemma PlaceSellStaysInSlots(s: Scale, o: Order, desk: Desk, available: u64)
    requires desk.sell.valid < 10
    ensures var r := PlaceSell(s, o, desk, available);
      if r.Failure? then r.error != IndexOutOfBounds
      else
        && r.value.desk.sell.valid <= desk.sell.valid + 1
        && r.value.desk.buy == desk.buy
        && r.value.desk.cur == desk.cur
  {
  }

  // ---- Starting a call ----

  /** The live orders of a side that this round has not replaced yet. */
  function Retain(live: seq<u64>, replaced: Ids): (queue: seq<u64>)
    ensures forall id :: id in queue <==> id in live && id !in replaced
  {
    if live == [] then []
    else if live[0] in replaced then Retain(live[1..], replaced)
    else [live[0]] + Retain(live[1..], replaced)
  }

  lemma {:induction false} RetainIsDistinct(live: seq<u64>, replaced: Ids)
    requires Distinct(live)
    ensures Distinct(Retain(live, replaced))
  {
    if live != [] {
      RetainIsDistinct(live[1..], replaced);
      assert live[0] !in live[1..];
    }
  }

  /** They keep their order: retaining is done order by order. */
  lemma {:induction false} RetainAppends(before: seq<u64>, after: seq<u64>, replaced: Ids)
    ensures Retain(before + after, replaced) == Retain(before, replaced) + Retain(after, replaced)
  {
    if before == [] {
      assert before + after == after;
    } else {
      assert (before + after)[1..] == before[1..] + after;
      RetainAppends(before[1..], after, replaced);
    }
  }

  lemma RetainOne(id: u64, replaced: Ids)
    ensures Retain([id], replaced) == if id in replaced then [] else [id]
  {
    assert [id][1..] == [];
  }

  lemma OpenSide(valid: u64, replaced: Ids, live: seq<u64>, clientId: u64)
    requires valid <= 10 && Distinct(replaced[..valid]) && Drawn(replaced[..valid], clientId)
    requires Distinct(live) && Drawn(live, clientId)
    ensures SideOk(Side(valid, replaced, Retain(live, replaced)), clientId)
  {
    RetainIsDistinct(live, replaced);
    var queue := Retain(live, replaced);
    forall i | 0 <= i < |queue| ensures 0 < queue[i] <= clientId {
      assert queue[i] in live;
    }
    forall i, j | 0 <= i < valid && 0 <= j < |queue| ensures replaced[i] != queue[j] {
      assert queue[j] !in replaced;
    }
  }
}
